/** Cells of the square grid, the x-major order in which the engine's nested
    loops visit them, and tile counts over a grid of rows. */
module Board {
  import opened Tiles

  type Cell = (int, int)

  predicate InGrid(n: int, c: Cell) {
    0 <= c.0 < n && 0 <= c.1 < n
  }

  /** Chebyshev distance exactly 1. */
  predicate Adjacent(a: Cell, b: Cell) {
    a != b && -1 <= a.0 - b.0 <= 1 && -1 <= a.1 - b.1 <= 1
  }

  /** The order of `for (x ...) for (y ...)`: x first, then y. */
  predicate LexBefore(a: Cell, b: Cell) {
    a.0 < b.0 || (a.0 == b.0 && a.1 < b.1)
  }

  predicate Ascending(s: seq<Cell>) {
    forall i, j :: 0 <= i < j < |s| ==> LexBefore(s[i], s[j])
  }

  lemma AscendingConcat(a: seq<Cell>, b: seq<Cell>)
    requires Ascending(a) && Ascending(b)
    requires forall i, j :: 0 <= i < |a| && 0 <= j < |b| ==> LexBefore(a[i], b[j])
    ensures Ascending(a + b)
  {
  }

  /** The head of an ascending sequence comes before every other member. */
  lemma AscendingHead(s: seq<Cell>, c: Cell)
    requires Ascending(s) && c in s
    ensures c == s[0] || LexBefore(s[0], c)
  {
    var i :| 0 <= i < |s| && s[i] == c;
  }

  /** An ascending sequence of cells is fixed by its members: the loop order
      leaves no choice in how a set of cells is listed. */
  lemma {:induction false} AscendingUnique(a: seq<Cell>, b: seq<Cell>)
    requires Ascending(a) && Ascending(b)
    requires forall c :: c in a <==> c in b
    ensures a == b
    decreases |a|
  {
    if |a| > 0 {
      assert a[0] in b;
    }
    if |b| > 0 {
      assert b[0] in a;
    }
    if |a| > 0 && |b| > 0 {
      AscendingHead(a, b[0]);
      AscendingHead(b, a[0]);
      forall c ensures c in a[1..] <==> c in b[1..] {
        if c in a[1..] {
          var i :| 1 <= i < |a| && a[i] == c;
          assert c != a[0] by { assert LexBefore(a[0], a[i]); }
          assert c in b;
        }
        if c in b[1..] {
          var j :| 1 <= j < |b| && b[j] == c;
          assert c != b[0] by { assert LexBefore(b[0], b[j]); }
          assert c in a;
        }
      }
      AscendingUnique(a[1..], b[1..]);
      assert a == [a[0]] + a[1..];
      assert b == [b[0]] + b[1..];
    }
  }

  /** Cells (x, y), (x, y + 1), ..., (x, n - 1): one pass of the inner loop. */
  function RowCells(x: int, y: int, n: int): (r: seq<Cell>)
    ensures forall c :: c in r <==> c.0 == x && y <= c.1 < n
    ensures Ascending(r)
    ensures |r| == if y <= n then n - y else 0
    decreases n - y
  {
    if y >= n then [] else [(x, y)] + RowCells(x, y + 1, n)
  }

  /** Rows x, x + 1, ..., n - 1 of an n-by-n grid, in loop order. */
  function CellsFrom(x: int, n: int): (r: seq<Cell>)
    requires 0 <= n
    ensures forall c :: c in r <==> x <= c.0 < n && 0 <= c.1 < n
    ensures Ascending(r)
    ensures |r| == if x <= n then (n - x) * n else 0
    decreases n - x
  {
    if x >= n then []
    else
      var row := RowCells(x, 0, n);
      var rest := CellsFrom(x + 1, n);
      RowsInOrder(x, row, rest);
      AscendingConcat(row, rest);
      assert |row + rest| == (n - x) * n by {
        assert (n - x) * n == n + (n - (x + 1)) * n;
      }
      assert forall c :: c in row + rest <==> c in row || c in rest;
      row + rest
  }

  /** A row x comes entirely before the rows after it. */
  lemma RowsInOrder(x: int, row: seq<Cell>, rest: seq<Cell>)
    requires forall c :: c in row ==> c.0 == x
    requires forall c :: c in rest ==> c.0 > x
    ensures forall i, j :: 0 <= i < |row| && 0 <= j < |rest| ==> LexBefore(row[i], rest[j])
  {
    forall i, j | 0 <= i < |row| && 0 <= j < |rest|
      ensures LexBefore(row[i], rest[j])
    {
      assert row[i] in row && rest[j] in rest;
    }
  }

  /** Every cell of an n-by-n grid, exactly once each, x-major. */
  function AllCells(n: nat): (r: seq<Cell>)
    ensures forall c :: c in r <==> InGrid(n, c)
    ensures Ascending(r)
    ensures |r| == n * n
  {
    CellsFrom(0, n)
  }

  /** The cells of `cs` that satisfy `p`, in their original order. */
  function Select(cs: seq<Cell>, p: Cell -> bool): (r: seq<Cell>)
    ensures forall c :: c in r <==> c in cs && p(c)
    ensures Ascending(cs) ==> Ascending(r)
    ensures |r| <= |cs|
    ensures (exists i :: 0 <= i < |cs| && !p(cs[i])) ==> |r| < |cs|
  {
    if |cs| == 0 then []
    else
      var rest := Select(cs[1..], p);
      if p(cs[0]) then
        assert Ascending(cs) ==> forall j :: 0 <= j < |rest| ==> LexBefore(cs[0], rest[j]) by {
          if Ascending(cs) {
            forall j | 0 <= j < |rest| ensures LexBefore(cs[0], rest[j]) {
              assert rest[j] in cs[1..];
            }
          }
        }
        [cs[0]] + rest
      else rest
  }

  // ---------------------------------------------------------------------
  // Counting tiles of a grid by a property.

  datatype Prop = IsBomb | IsSafe | IsDiscovered | IsHidden

  /** IsHidden: a non-bomb tile not yet discovered, the tiles a player must
      still uncover. */
  predicate Holds(p: Prop, t: Tile) {
    match p
    case IsBomb => t.bomb
    case IsSafe => !t.bomb
    case IsDiscovered => t.discovered
    case IsHidden => !t.bomb && !t.discovered
  }

  function Ind(b: bool): nat {
    if b then 1 else 0
  }

  function RowCount(row: seq<Tile>, p: Prop): nat {
    if |row| == 0 then 0 else Ind(Holds(p, row[0])) + RowCount(row[1..], p)
  }

  function GridCount(tiles: seq<seq<Tile>>, p: Prop): nat {
    if |tiles| == 0 then 0 else RowCount(tiles[0], p) + GridCount(tiles[1..], p)
  }

  function GridSize(tiles: seq<seq<Tile>>): nat {
    if |tiles| == 0 then 0 else |tiles[0]| + GridSize(tiles[1..])
  }

  /** Replacing one tile changes a count by that tile's contribution only. */
  lemma {:induction false} RowCountUpdate(row: seq<Tile>, y: int, t: Tile, p: Prop)
    requires 0 <= y < |row|
    ensures RowCount(row[y := t], p) == RowCount(row, p) - Ind(Holds(p, row[y])) + Ind(Holds(p, t))
  {
    if y == 0 {
      assert row[y := t][1..] == row[1..];
    } else {
      assert row[y := t][1..] == row[1..][y - 1 := t];
      RowCountUpdate(row[1..], y - 1, t, p);
    }
  }

  lemma {:induction false} GridCountUpdate(tiles: seq<seq<Tile>>, x: int, y: int, t: Tile, p: Prop)
    requires 0 <= x < |tiles| && 0 <= y < |tiles[x]|
    ensures GridCount(tiles[x := tiles[x][y := t]], p)
         == GridCount(tiles, p) - Ind(Holds(p, tiles[x][y])) + Ind(Holds(p, t))
  {
    var u := tiles[x := tiles[x][y := t]];
    if x == 0 {
      assert u[1..] == tiles[1..];
      RowCountUpdate(tiles[0], y, t, p);
    } else {
      assert u[1..] == tiles[1..][x - 1 := tiles[x][y := t]];
      GridCountUpdate(tiles[1..], x - 1, y, t, p);
    }
  }

  /** A count is zero when no tile has the property. */
  lemma {:induction false} GridCountNone(tiles: seq<seq<Tile>>, p: Prop)
    requires forall x, y :: 0 <= x < |tiles| && 0 <= y < |tiles[x]| ==> !Holds(p, tiles[x][y])
    ensures GridCount(tiles, p) == 0
  {
    if |tiles| > 0 {
      RowCountNone(tiles[0], p);
      GridCountNone(tiles[1..], p);
    }
  }

  lemma {:induction false} RowCountNone(row: seq<Tile>, p: Prop)
    requires forall y :: 0 <= y < |row| ==> !Holds(p, row[y])
    ensures RowCount(row, p) == 0
  {
    if |row| > 0 {
      RowCountNone(row[1..], p);
    }
  }

  /** Bomb and non-bomb tiles partition the grid. */
  lemma {:induction false} GridCountBombSafe(tiles: seq<seq<Tile>>)
    ensures GridCount(tiles, IsBomb) + GridCount(tiles, IsSafe) == GridSize(tiles)
  {
    if |tiles| > 0 {
      RowCountBombSafe(tiles[0]);
      GridCountBombSafe(tiles[1..]);
    }
  }

  lemma {:induction false} RowCountBombSafe(row: seq<Tile>)
    ensures RowCount(row, IsBomb) + RowCount(row, IsSafe) == |row|
  {
    if |row| > 0 {
      RowCountBombSafe(row[1..]);
    }
  }

  /** When no bomb is discovered, the non-bomb tiles split into hidden and
      discovered ones. */
  lemma {:induction false} GridCountSafeSplit(tiles: seq<seq<Tile>>)
    requires forall x, y :: 0 <= x < |tiles| && 0 <= y < |tiles[x]| ==> !(tiles[x][y].discovered && tiles[x][y].bomb)
    ensures GridCount(tiles, IsHidden) + GridCount(tiles, IsDiscovered) == GridCount(tiles, IsSafe)
  {
    if |tiles| > 0 {
      RowCountSafeSplit(tiles[0]);
      GridCountSafeSplit(tiles[1..]);
    }
  }

  lemma {:induction false} RowCountSafeSplit(row: seq<Tile>)
    requires forall y :: 0 <= y < |row| ==> !(row[y].discovered && row[y].bomb)
    ensures RowCount(row, IsHidden) + RowCount(row, IsDiscovered) == RowCount(row, IsSafe)
  {
    if |row| > 0 {
      RowCountSafeSplit(row[1..]);
    }
  }

  /** An n-by-n grid holds n * n tiles. */
  lemma {:induction false} GridSizeSquare(tiles: seq<seq<Tile>>, n: nat)
    requires forall x :: 0 <= x < |tiles| ==> |tiles[x]| == n
    ensures GridSize(tiles) == |tiles| * n
  {
    if |tiles| > 0 {
      GridSizeSquare(tiles[1..], n);
    }
  }
}
