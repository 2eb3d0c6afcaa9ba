/** One grid cell: a fixed position and bomb flag, plus the two bits the
    engine changes while a game is played. */
module Tiles {

  datatype Tile = Tile(x: int, y: int, bomb: bool, discovered: bool, flagged: bool)

  /** A fresh tile: covered and unflagged. */
  function NewTile(x: int, y: int, bomb: bool): (t: Tile)
    ensures t.x == x && t.y == y && t.bomb == bomb
    ensures !t.discovered && !t.flagged
  {
    Tile(x, y, bomb, false, false)
  }

  function SetDiscovered(t: Tile, b: bool): (r: Tile)
    ensures r.discovered == b
    ensures r.x == t.x && r.y == t.y && r.bomb == t.bomb && r.flagged == t.flagged
  {
    t.(discovered := b)
  }

  function SetFlagged(t: Tile, b: bool): (r: Tile)
    ensures r.flagged == b
    ensures r.x == t.x && r.y == t.y && r.bomb == t.bomb && r.discovered == t.discovered
  {
    t.(flagged := b)
  }

  /** Setting a bit twice keeps only the last value, and the two setters
      act on independent bits, so they commute. */
  lemma SettersCompose(t: Tile, a: bool, b: bool)
    ensures SetDiscovered(SetDiscovered(t, a), b) == SetDiscovered(t, b)
    ensures SetFlagged(SetFlagged(t, a), b) == SetFlagged(t, b)
    ensures SetFlagged(SetDiscovered(t, a), b) == SetDiscovered(SetFlagged(t, b), a)
    ensures SetDiscovered(t, t.discovered) == t && SetFlagged(t, t.flagged) == t
  {
  }

  // ---------------------------------------------------------------------
  // Decimal rendering of Java ints (Integer.toString) and the "x,y" key.

  predicate IsDigit(c: char) {
    '0' <= c <= '9'
  }

  function DigitChar(d: int): (c: char)
    requires 0 <= d < 10
    ensures IsDigit(c) && c as int - '0' as int == d
  {
    ('0' as int + d) as char
  }

  /** Decimal digits of `n`, most significant first, without leading zeros. */
  function NatToString(n: nat): (s: string)
    ensures |s| > 0
    ensures forall i :: 0 <= i < |s| ==> IsDigit(s[i])
    ensures s[0] == '0' ==> n == 0
    decreases n
  {
    if n < 10 then [DigitChar(n)] else NatToString(n / 10) + [DigitChar(n % 10)]
  }

  /** Integer.toString: a minus sign for negative numbers, then the digits. */
  function IntToString(n: int): (s: string)
  {
    if n < 0 then "-" + NatToString(-n) else NatToString(n)
  }

  /** The rendering is Integer.toString's canonical form: "0" for zero,
      otherwise no leading zero, with a minus sign exactly for negatives. */
  lemma IntToStringCanonical(n: int)
    ensures var s := IntToString(n);
            && |s| > 0
            && (n == 0 <==> s == "0")
            && (n < 0 <==> s[0] == '-')
            && (n < 0 ==> |s| > 1 && AllDigits(s[1..]) && s[1] != '0')
            && (n >= 0 ==> AllDigits(s))
            && (n > 0 ==> s[0] != '0')
  {
    var d := NatToString(if n < 0 then -n else n);
    assert AllDigits(d);
    if n < 0 {
      assert IntToString(n)[1..] == d;
    }
  }

  /** The tile's key: decimal x, a comma, decimal y. No rendering holds a
      comma, so the key's first comma is the separator. */
  function GetXY(t: Tile): (s: string)
    ensures FirstComma(s) < |s|
    ensures s[..FirstComma(s)] == IntToString(t.x) && s[FirstComma(s) + 1..] == IntToString(t.y)
  {
    var a := IntToString(t.x);
    var b := IntToString(t.y);
    NoCommaIn(t.x);
    FirstCommaAt(a + "," + b, |a|);
    assert (a + "," + b)[..|a|] == a && (a + "," + b)[|a| + 1..] == b;
    a + "," + b
  }

  /** A rendering is a minus sign and digits, never a comma. */
  lemma NoCommaIn(n: int)
    ensures forall i :: 0 <= i < |IntToString(n)| ==> IntToString(n)[i] != ','
  {
    IntToStringCanonical(n);
  }

  // ---------------------------------------------------------------------
  // Reading a key back, the inverse of GetXY.

  /** Value of a string of decimal digits. */
  function DigitsValue(s: string): (n: nat)
    requires forall i :: 0 <= i < |s| ==> IsDigit(s[i])
  {
    if |s| == 0 then 0
    else
      assert IsDigit(s[|s| - 1]);
      var d: nat := s[|s| - 1] as int - '0' as int;
      DigitsValue(s[..|s| - 1]) * 10 + d
  }

  predicate AllDigits(s: string) {
    |s| > 0 && forall i :: 0 <= i < |s| ==> IsDigit(s[i])
  }

  /** Parses an optional minus sign followed by at least one digit. */
  function ParseInt(s: string): (r: Option<int>)
  {
    if |s| > 0 && s[0] == '-' then
      (if AllDigits(s[1..]) then var v: int := DigitsValue(s[1..]); Some(-v) else None)
    else if AllDigits(s) then Some(DigitsValue(s))
    else None
  }

  /** Index of the first comma of `s`, or |s| when there is none. */
  function FirstComma(s: string): (k: nat)
    ensures k <= |s|
    ensures forall i :: 0 <= i < k ==> s[i] != ','
    ensures k < |s| ==> s[k] == ','
  {
    if |s| == 0 then 0 else if s[0] == ',' then 0 else 1 + FirstComma(s[1..])
  }

  /** Splits a key at its first comma and parses both halves. */
  function ParseXY(s: string): (r: Option<(int, int)>)
  {
    var k := FirstComma(s);
    if k == |s| then None
    else match (ParseInt(s[..k]), ParseInt(s[k + 1..]))
      case (Some(x), Some(y)) => Some((x, y))
      case _ => None
  }

  datatype Option<T> = None | Some(value: T)

  lemma {:induction false} DigitsRoundTrip(n: nat)
    ensures DigitsValue(NatToString(n)) == n
    decreases n
  {
    var s := NatToString(n);
    if n >= 10 {
      DigitsRoundTrip(n / 10);
      assert s[..|s| - 1] == NatToString(n / 10);
    }
  }

  lemma IntRoundTrip(n: int)
    ensures ParseInt(IntToString(n)) == Some(n)
  {
    var d := NatToString(if n < 0 then -n else n);
    DigitsRoundTrip(if n < 0 then -n else n);
    assert AllDigits(d);
    if n < 0 {
      var s := "-" + d;
      assert s == IntToString(n);
      assert s[1..] == d;
      assert s[0] == '-';
    } else {
      assert IntToString(n) == d;
      assert d[0] != '-';
    }
  }

  /** The key of a tile parses back to the tile's position. */
  lemma GetXYRoundTrip(t: Tile)
    ensures ParseXY(GetXY(t)) == Some((t.x, t.y))
  {
    IntRoundTrip(t.x);
    IntRoundTrip(t.y);
  }

  lemma {:induction false} FirstCommaAt(s: string, k: nat)
    requires k < |s| && s[k] == ','
    requires forall i :: 0 <= i < k ==> s[i] != ','
    ensures FirstComma(s) == k
  {
    if k > 0 {
      FirstCommaAt(s[1..], k - 1);
    }
  }
}
