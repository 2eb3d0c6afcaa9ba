/** Properties of the player actions: what each one changes, which
    notifications it sends and in what order, and that every one of them
    keeps the engine invariant. */
module Actions {
  import opened Tiles
  import opened Board
  import opened Minesweeper
  import opened FloodFill

  /** Which cells a sweep over the whole grid notifies. */
  datatype Which = Everywhere | Bombs | BombsExcept(skip: Cell)

  predicate Selected(g: Game, w: Which, c: Cell)
    requires WellFormed(g)
  {
    InGrid(g.gridSize, c) &&
    match w
    case Everywhere => true
    case Bombs => At(g, c).bomb
    case BombsExcept(skip) => At(g, c).bomb && c != skip
  }

  function Positions(evs: seq<Event>): (r: seq<Cell>)
    ensures |r| == |evs|
    ensures forall i :: 0 <= i < |evs| ==> r[i] == (evs[i].x, evs[i].y)
  {
    seq(|evs|, i requires 0 <= i < |evs| => (evs[i].x, evs[i].y))
  }

  /** `evs` notifies with mark `m` exactly the cells `w` selects, each once,
      in the x-major order of the engine's nested loops. */
  ghost predicate Sweep(g: Game, evs: seq<Event>, m: Mark, w: Which)
    requires WellFormed(g)
  {
    && (forall i :: 0 <= i < |evs| ==> evs[i] == MarkEvent(m, (evs[i].x, evs[i].y)))
    && Ascending(Positions(evs))
    && (forall c :: Selected(g, w, c) <==> MarkEvent(m, c) in evs)
  }

  lemma MarkAllSweep(g: Game, m: Mark, w: Which, cs: seq<Cell>)
    requires WellFormed(g) && Ascending(cs)
    requires forall c :: c in cs <==> Selected(g, w, c)
    ensures Sweep(g, MarkAll(m, cs), m, w)
  {
    var evs := MarkAll(m, cs);
    assert Positions(evs) == cs;
    forall c ensures MarkEvent(m, c) in evs ==> c in cs {
      if MarkEvent(m, c) in evs {
        var i :| 0 <= i < |evs| && evs[i] == MarkEvent(m, c);
        assert cs[i] == c;
      }
    }
    forall c | c in cs ensures MarkEvent(m, c) in evs {
      var i :| 0 <= i < |cs| && cs[i] == c;
      assert evs[i] == MarkEvent(m, c);
    }
  }

  /** A sweep's notifications are about pairwise different cells. */
  lemma SweepDistinct(g: Game, evs: seq<Event>, m: Mark, w: Which)
    requires WellFormed(g) && Sweep(g, evs, m, w)
    ensures DistinctCells(evs)
  {
    var p := Positions(evs);
    forall i, j | 0 <= i < j < |evs| ensures (evs[i].x, evs[i].y) != (evs[j].x, evs[j].y) {
      assert LexBefore(p[i], p[j]);
    }
  }

  // ---------------------------------------------------------------------
  // reset and the constructor.

  /** reset(): a fresh valid board with the latch cleared, and one
      makeDefault per cell, x-major. */
  lemma ResetSpec(g: Game, layout: seq<seq<bool>>)
    requires WellFormed(g) && LayoutFits(g.gridSize, layout)
    ensures var r := Reset(g, layout);
            && Valid(r.game) && !r.game.gameOver && r.game.gridSize == g.gridSize
            && (forall x, y :: 0 <= x < g.gridSize && 0 <= y < g.gridSize ==>
                  var t := r.game.tiles[x][y];
                  t.bomb == layout[x][y] && !t.discovered && !t.flagged)
            && r.game.remainingTiles == g.gridSize * g.gridSize - GridCount(r.game.tiles, IsBomb)
            && |r.events| == g.gridSize * g.gridSize
            && Sweep(r.game, r.events, AsDefault, Everywhere)
  {
    var r := Reset(g, layout);
    MarkAllSweep(r.game, AsDefault, Everywhere, AllCells(g.gridSize));
  }

  // ---------------------------------------------------------------------
  // trigger.

  /** Triggering a covered, unflagged bomb: gameLose on it, then makeBomb on
      every other bomb once each; only the latch changes. */
  lemma TriggerBomb(g: Game, x: int, y: int)
    requires WellFormed(g) && !g.gameOver && InGrid(g.gridSize, (x, y))
    requires !At(g, (x, y)).discovered && !At(g, (x, y)).flagged && At(g, (x, y)).bomb
    ensures Trigger(g, x, y).Ok?
    ensures var r := Trigger(g, x, y).value;
            && r.game == g.(gameOver := true)
            && |r.events| >= 1 && r.events[0] == GameLose(x, y)
            && Sweep(g, r.events[1..], AsBomb, BombsExcept((x, y)))
            && DistinctCells(r.events[1..])
            && MakeBomb(x, y) !in r.events
  {
    var r := Trigger(g, x, y).value;
    var cs := OtherBombCells(g, x, y);
    assert r == Lose(g, x, y);
    assert r.events[1..] == MarkAll(AsBomb, cs);
    MarkAllSweep(g, AsBomb, BombsExcept((x, y)), cs);
    SweepDistinct(g, r.events[1..], AsBomb, BombsExcept((x, y)));
    assert MakeBomb(x, y) !in r.events by {
      assert !Selected(g, BombsExcept((x, y)), (x, y));
      assert MakeBomb(x, y) !in r.events[1..];
      assert r.events == [r.events[0]] + r.events[1..];
    }
  }

  /** The win sequence after the notifications `prior`. */
  lemma WinSpec(g: Game, h: Game, x: int, y: int, k: int, prior: seq<Event>)
    requires WellFormed(g) && WellFormed(h) && SameBoard(g, h)
    ensures var r := Win(h, x, y, k, prior);
            && r.game == h.(gameOver := true)
            && |r.events| > |prior|
            && r.events[..|prior|] == prior
            && r.events[|prior|] == GameWin(x, y, k)
            && Sweep(g, r.events[|prior| + 1..], AsFlag, Bombs)
  {
    var r := Win(h, x, y, k, prior);
    var cs := BombCells(h);
    assert r.events[|prior| + 1..] == MarkAll(AsFlag, cs);
    assert forall c :: c in cs <==> Selected(g, Bombs, c);
    MarkAllSweep(g, AsFlag, Bombs, cs);
  }

  /** The notifications of a safe trigger on (x, y) whose bomb count is k:
      first the flood-fill's makeUncovered on the tiles it discovers (each
      covered, unflagged and safe before, each once, never (x, y) itself),
      then either gameWin on (x, y) followed by makeFlag on every bomb, or a
      single makeUncovered on (x, y). Exactly (x, y) and the filled tiles
      become discovered, and remainingTiles drops by one for each of them. */
  ghost predicate RevealTrace(g: Game, x: int, y: int, k: int, fill: seq<Event>, r: Step)
    requires WellFormed(g) && WellFormed(r.game)
  {
    && (forall i :: 0 <= i < |fill| ==> Announces(g, fill[i]))
    && DistinctCells(fill)
    && (x, y) !in EventCells(fill)
    && (k != 0 ==> fill == [])
    && (k == 0 ==> Reached(NearbyTiles(g.gridSize, x, y), fill))
    && r.game.remainingTiles == g.remainingTiles - 1 - |fill|
    && Uncovers(g, r.game.(gameOver := g.gameOver), EventCells(fill) + {(x, y)})
    && (r.game.gameOver ==>
          && |r.events| > |fill|
          && r.events[..|fill|] == fill
          && r.events[|fill|] == GameWin(x, y, k)
          && Sweep(g, r.events[|fill| + 1..], AsFlag, Bombs))
    && (!r.game.gameOver ==> r.events == fill + [MakeUncovered(x, y, k)])
  }

  /** Triggering a covered, unflagged, safe tile. The game is won, and the
      latch set, exactly when remainingTiles reaches zero. The tiles uncovered
      are sound (RevealTrace) and complete: around the triggered tile, when
      it is a zero, and around every zero tile the fill announces, nothing
      is left covered except under a flag. */
  lemma TriggerSafe(g: Game, x: int, y: int)
    requires Valid(g) && !g.gameOver && InGrid(g.gridSize, (x, y))
    requires !At(g, (x, y)).discovered && !At(g, (x, y)).flagged && !At(g, (x, y)).bomb
    ensures Trigger(g, x, y).Ok?
    ensures var r := Trigger(g, x, y).value;
            && Valid(r.game)
            && At(r.game, (x, y)).discovered
            && (r.game.gameOver <==> r.game.remainingTiles == 0)
            && exists fill :: RevealTrace(g, x, y, NearbyBombs(g, x, y), fill, r)
    ensures var r := Trigger(g, x, y).value;
            && (NearbyBombs(g, x, y) == 0 ==> AroundSettled(r.game, (x, y)))
            && ZerosSettled(r.game, r.events)
  {
    TriggerSafeSound(g, x, y);
    TriggerSafeComplete(g, x, y);
  }

  /** The first half of TriggerSafe: the outcome, and the trace of what was
      uncovered. */
  lemma TriggerSafeSound(g: Game, x: int, y: int)
    requires Valid(g) && !g.gameOver && InGrid(g.gridSize, (x, y))
    requires !At(g, (x, y)).discovered && !At(g, (x, y)).flagged && !At(g, (x, y)).bomb
    ensures Trigger(g, x, y).Ok?
    ensures var r := Trigger(g, x, y).value;
            && Valid(r.game)
            && At(r.game, (x, y)).discovered
            && (r.game.gameOver <==> r.game.remainingTiles == 0)
            && exists fill :: RevealTrace(g, x, y, NearbyBombs(g, x, y), fill, r)
  {
    var c := (x, y);
    var g1 := DiscoverOne(g, c);
    var k := NearbyBombs(g, x, y);
    DiscoverValid(g, c);
    assert SameBoard(g, g1);
    NearbyBombsSameBoard(g, g1, x, y);
    assert Trigger(g, x, y).value == Settle(g1, x, y, k);
    if g1.remainingTiles <= 0 {
      SettleWinsAtOnce(g, x, y);
    } else if k == 0 {
      SettleFloods(g, x, y);
    } else {
      SettleNumber(g, x, y);
    }
  }

  lemma SettleWinsAtOnce(g: Game, x: int, y: int)
    requires Valid(g) && !g.gameOver && InGrid(g.gridSize, (x, y))
    requires !At(g, (x, y)).discovered && !At(g, (x, y)).flagged && !At(g, (x, y)).bomb
    requires DiscoverOne(g, (x, y)).remainingTiles <= 0
    ensures var r := Settle(DiscoverOne(g, (x, y)), x, y, NearbyBombs(g, x, y));
            && Valid(r.game) && At(r.game, (x, y)).discovered
            && r.game.gameOver && r.game.remainingTiles == 0
            && RevealTrace(g, x, y, NearbyBombs(g, x, y), [], r)
  {
    var g1 := DiscoverOne(g, (x, y));
    var k := NearbyBombs(g, x, y);
    DiscoverValid(g, (x, y));
    assert Settle(g1, x, y, k) == Win(g1, x, y, k, []);
    WinAtOnceTrace(g, g1, x, y, k);
  }

  lemma WinAtOnceTrace(g: Game, g1: Game, x: int, y: int, k: int)
    requires Valid(g) && !g.gameOver && InGrid(g.gridSize, (x, y))
    requires g1 == DiscoverOne(g, (x, y)) && Valid(g1) && g1.remainingTiles == 0
    ensures var r := Win(g1, x, y, k, []);
            && Valid(r.game) && At(r.game, (x, y)).discovered
            && r.game.gameOver && r.game.remainingTiles == 0
            && RevealTrace(g, x, y, k, [], r)
  {
    var r := Win(g1, x, y, k, []);
    assert Uncovers(g, g1, {(x, y)});
    assert SameBoard(g, g1);
    assert r.game.(gameOver := g.gameOver) == g1;
    WinSpec(g, g1, x, y, k, []);
    assert EventCells([]) == {};
  }

  lemma SettleNumber(g: Game, x: int, y: int)
    requires Valid(g) && !g.gameOver && InGrid(g.gridSize, (x, y))
    requires !At(g, (x, y)).discovered && !At(g, (x, y)).flagged && !At(g, (x, y)).bomb
    requires DiscoverOne(g, (x, y)).remainingTiles > 0 && NearbyBombs(g, x, y) != 0
    ensures var r := Settle(DiscoverOne(g, (x, y)), x, y, NearbyBombs(g, x, y));
            && Valid(r.game) && At(r.game, (x, y)).discovered
            && !r.game.gameOver && r.game.remainingTiles > 0
            && RevealTrace(g, x, y, NearbyBombs(g, x, y), [], r)
  {
    DiscoverValid(g, (x, y));
    NumberTrace(g, x, y, NearbyBombs(g, x, y));
  }

  /** Announcing a single tile with count k != 0, with no fill before it. */
  lemma NumberTrace(g: Game, x: int, y: int, k: int)
    requires WellFormed(g) && !g.gameOver && InGrid(g.gridSize, (x, y)) && k != 0
    ensures var g1 := DiscoverOne(g, (x, y));
            RevealTrace(g, x, y, k, [], Step(g1, [MakeUncovered(x, y, k)]))
  {
    var g1 := DiscoverOne(g, (x, y));
    assert Uncovers(g, g1, {(x, y)});
    assert EventCells([]) == {};
  }

  lemma SettleFloods(g: Game, x: int, y: int)
    requires Valid(g) && !g.gameOver && InGrid(g.gridSize, (x, y))
    requires !At(g, (x, y)).discovered && !At(g, (x, y)).flagged && !At(g, (x, y)).bomb
    requires DiscoverOne(g, (x, y)).remainingTiles > 0 && NearbyBombs(g, x, y) == 0
    ensures var r := Settle(DiscoverOne(g, (x, y)), x, y, 0);
            && Valid(r.game) && At(r.game, (x, y)).discovered
            && (r.game.gameOver <==> r.game.remainingTiles == 0)
            && RevealTrace(g, x, y, 0, UncoverAdjacentZeros(DiscoverOne(g, (x, y)), x, y).events, r)
  {
    var g1 := DiscoverOne(g, (x, y));
    var f := UncoverAdjacentZeros(g1, x, y);
    assert Settle(g1, x, y, 0) == AfterFlood(f, x, y);
    FillAroundZero(g, x, y);
    if f.won {
      FloodWins(g, x, y, f);
    } else {
      FloodStops(g, x, y, f);
    }
  }

  lemma FloodWins(g: Game, x: int, y: int, f: Flood)
    requires Valid(g) && !g.gameOver && InGrid(g.gridSize, (x, y)) && WellFormed(f.game) && f.game.gridSize == g.gridSize
    requires f.won && Valid(f.game) && At(f.game, (x, y)).discovered && f.game.remainingTiles == 0
    requires forall i :: 0 <= i < |f.events| ==> Announces(g, f.events[i])
    requires DistinctCells(f.events) && (x, y) !in EventCells(f.events)
    requires f.game.remainingTiles == g.remainingTiles - 1 - |f.events|
    requires Uncovers(g, f.game, EventCells(f.events) + {(x, y)})
    requires Reached(NearbyTiles(g.gridSize, x, y), f.events)
    ensures var r := AfterFlood(f, x, y);
            && Valid(r.game) && At(r.game, (x, y)).discovered && r.game.gameOver
            && RevealTrace(g, x, y, 0, f.events, r)
  {
    UncoversSameBoard(g, f.game, EventCells(f.events) + {(x, y)});
    WinSpec(g, f.game, x, y, 0, f.events);
    var r := AfterFlood(f, x, y);
    assert r.game.(gameOver := g.gameOver) == f.game;
  }

  lemma FloodStops(g: Game, x: int, y: int, f: Flood)
    requires Valid(g) && !g.gameOver && InGrid(g.gridSize, (x, y)) && WellFormed(f.game) && f.game.gridSize == g.gridSize
    requires !f.won && Valid(f.game) && At(f.game, (x, y)).discovered && f.game.remainingTiles != 0
    requires forall i :: 0 <= i < |f.events| ==> Announces(g, f.events[i])
    requires DistinctCells(f.events) && (x, y) !in EventCells(f.events)
    requires f.game.remainingTiles == g.remainingTiles - 1 - |f.events|
    requires Uncovers(g, f.game, EventCells(f.events) + {(x, y)})
    requires Reached(NearbyTiles(g.gridSize, x, y), f.events)
    ensures var r := AfterFlood(f, x, y);
            && Valid(r.game) && At(r.game, (x, y)).discovered && !r.game.gameOver
            && RevealTrace(g, x, y, 0, f.events, r)
  {
  }

  /** What the flood-fill after discovering the zero tile (x, y) did, told
      from the state before that discovery. */
  lemma FillAroundZero(g: Game, x: int, y: int)
    requires Valid(g) && !g.gameOver && InGrid(g.gridSize, (x, y))
    requires !At(g, (x, y)).discovered && !At(g, (x, y)).flagged && !At(g, (x, y)).bomb
    requires DiscoverOne(g, (x, y)).remainingTiles > 0 && NearbyBombs(g, x, y) == 0
    ensures var f := UncoverAdjacentZeros(DiscoverOne(g, (x, y)), x, y);
            && Valid(f.game) && At(f.game, (x, y)).discovered
            && (f.won <==> f.game.remainingTiles == 0)
            && (forall i :: 0 <= i < |f.events| ==> Announces(g, f.events[i]))
            && DistinctCells(f.events)
            && (x, y) !in EventCells(f.events)
            && f.game.remainingTiles == g.remainingTiles - 1 - |f.events|
            && Uncovers(g, f.game, EventCells(f.events) + {(x, y)})
  {
    var c := (x, y);
    var f := UncoverAdjacentZeros(DiscoverOne(g, c), x, y);
    ZeroStepInner(g, c);
    FloodFillAfterFirst(g, c, f);
  }

  /** Splits off the first notification of a fill whose run starts with
      the discovery of `c`. */
  lemma FloodFillAfterFirst(g: Game, c: Cell, f: Flood)
    requires WellFormed(g) && InGrid(g.gridSize, c)
    requires forall i :: 0 <= i < |f.events| + 1 ==> Announces(g, ([MakeUncovered(c.0, c.1, 0)] + f.events)[i])
    requires DistinctCells([MakeUncovered(c.0, c.1, 0)] + f.events)
    ensures forall i :: 0 <= i < |f.events| ==> Announces(g, f.events[i])
    ensures DistinctCells(f.events)
    ensures c !in EventCells(f.events)
    ensures EventCells([MakeUncovered(c.0, c.1, 0)] + f.events) == EventCells(f.events) + {c}
  {
    var ev := MakeUncovered(c.0, c.1, 0);
    AnnouncesTail(g, ev, f.events);
    DistinctTail(ev, f.events);
    EventCellsConcat([ev], f.events);
    assert EventCells([ev]) == {c};
  }

  lemma AnnouncesTail(g: Game, e: Event, evs: seq<Event>)
    requires WellFormed(g)
    requires forall i :: 0 <= i < |evs| + 1 ==> Announces(g, ([e] + evs)[i])
    ensures forall i :: 0 <= i < |evs| ==> Announces(g, evs[i])
  {
    var all := [e] + evs;
    assert all[1..] == evs;
  }

  /** Dropping the first notification keeps the cells distinct, and the
      first one's cell is none of the rest. */
  lemma DistinctTail(e: Event, evs: seq<Event>)
    requires DistinctCells([e] + evs)
    ensures DistinctCells(evs)
    ensures (e.x, e.y) !in EventCells(evs)
  {
    var all := [e] + evs;
    forall i, j | 0 <= i < j < |evs| ensures (evs[i].x, evs[i].y) != (evs[j].x, evs[j].y) {
      assert all[i + 1] == evs[i] && all[j + 1] == evs[j];
    }
    forall d | d in evs ensures (d.x, d.y) != (e.x, e.y) {
      var i :| 0 <= i < |evs| && evs[i] == d;
      assert all[0] == e && all[i + 1] == d;
    }
  }

  /** Completeness of a safe trigger: when the triggered tile has no bomb
      around it, every neighbour ends up discovered or flagged, and so does
      every neighbour of each zero tile announced on the way. RevealTrace
      bounds the fill from the other side: a tile with bombs around fills
      nothing, and a zero tile's fill announces only tiles reached from its
      neighbours through zero tiles announced earlier. */
  lemma TriggerSafeComplete(g: Game, x: int, y: int)
    requires Valid(g) && !g.gameOver && InGrid(g.gridSize, (x, y))
    requires !At(g, (x, y)).discovered && !At(g, (x, y)).flagged && !At(g, (x, y)).bomb
    ensures Trigger(g, x, y).Ok?
    ensures var r := Trigger(g, x, y).value;
            && (NearbyBombs(g, x, y) == 0 ==> AroundSettled(r.game, (x, y)))
            && ZerosSettled(r.game, r.events)
  {
    TriggerIsSettle(g, x, y);
    var g1 := DiscoverOne(g, (x, y));
    if g1.remainingTiles <= 0 {
      CompleteWinsAtOnce(g, x, y);
    } else if NearbyBombs(g, x, y) == 0 {
      CompleteFloods(g, x, y);
    } else {
      assert !ZeroNotice(MakeUncovered(x, y, NearbyBombs(g, x, y)));
    }
  }

  /** A safe trigger discovers the tile and settles with its bomb count. */
  lemma TriggerIsSettle(g: Game, x: int, y: int)
    requires Valid(g) && !g.gameOver && InGrid(g.gridSize, (x, y))
    requires !At(g, (x, y)).discovered && !At(g, (x, y)).flagged && !At(g, (x, y)).bomb
    ensures Trigger(g, x, y) == Ok(Settle(DiscoverOne(g, (x, y)), x, y, NearbyBombs(g, x, y)))
  {
    var g1 := DiscoverOne(g, (x, y));
    assert SameBoard(g, g1);
    NearbyBombsSameBoard(g, g1, x, y);
  }

  lemma CompleteWinsAtOnce(g: Game, x: int, y: int)
    requires Valid(g) && !g.gameOver && InGrid(g.gridSize, (x, y))
    requires !At(g, (x, y)).discovered && !At(g, (x, y)).flagged && !At(g, (x, y)).bomb
    requires DiscoverOne(g, (x, y)).remainingTiles <= 0
    ensures var r := Settle(DiscoverOne(g, (x, y)), x, y, NearbyBombs(g, x, y));
            && (NearbyBombs(g, x, y) == 0 ==> AroundSettled(r.game, (x, y)))
            && ZerosSettled(r.game, r.events)
  {
    var g1 := DiscoverOne(g, (x, y));
    DiscoverValid(g, (x, y));
    assert SameBoard(g, g1);
    WinSettles(g, g1, x, y, NearbyBombs(g, x, y));
  }

  /** The win reached by the triggered tile itself: nothing covered is
      left, so everything around a zero is discovered. */
  lemma WinSettles(g: Game, h: Game, x: int, y: int, k: int)
    requires WellFormed(g) && Valid(h) && h.remainingTiles == 0 && SameBoard(g, h)
    requires k == NearbyBombs(g, x, y)
    ensures var r := Win(h, x, y, k, []);
            && (k == 0 ==> AroundSettled(r.game, (x, y)))
            && ZerosSettled(r.game, r.events)
  {
    var h1 := h.(gameOver := true);
    assert Valid(h1) && SameBoard(g, h1);
    WinKeepsZeros(h1, h, x, y, k, []);
    if k == 0 {
      WonAroundZero(h1, g, x, y);
    }
  }

  /** Once nothing is left to uncover, everything around a zero tile is
      discovered. */
  lemma WonAroundZero(h: Game, g: Game, x: int, y: int)
    requires Valid(h) && h.remainingTiles == 0 && WellFormed(g) && SameBoard(g, h)
    requires NearbyBombs(g, x, y) == 0
    ensures AroundSettled(h, (x, y))
  {
    NearbyBombsZero(g, x, y);
    forall d | Adjacent(d, (x, y)) && InGrid(h.gridSize, d) ensures Settled(h, d) {
      NoHiddenLeft(h, d);
    }
  }

  lemma CompleteFloods(g: Game, x: int, y: int)
    requires Valid(g) && !g.gameOver && InGrid(g.gridSize, (x, y))
    requires !At(g, (x, y)).discovered && !At(g, (x, y)).flagged && !At(g, (x, y)).bomb
    requires DiscoverOne(g, (x, y)).remainingTiles > 0 && NearbyBombs(g, x, y) == 0
    ensures var r := Settle(DiscoverOne(g, (x, y)), x, y, 0);
            && AroundSettled(r.game, (x, y))
            && ZerosSettled(r.game, r.events)
  {
    var g1 := DiscoverOne(g, (x, y));
    var f := UncoverAdjacentZeros(g1, x, y);
    assert Settle(g1, x, y, 0) == AfterFlood(f, x, y);
    ZeroStart(g, (x, y));
    UncoverFromComplete(g1, NearbyTiles(g1.gridSize, x, y));
    SettledAround(f.game, (x, y));
    if f.won {
      var h := f.game.(gameOver := true);
      assert AroundSettled(h, (x, y)) && ZerosSettled(h, f.events) by {
        assert h.tiles == f.game.tiles;
      }
      WinKeepsZeros(h, f.game, x, y, 0, f.events);
    } else {
      ZeroNoticeSettled(f.game, (x, y));
      ZerosSettledConcat(f.game, f.events, [MakeUncovered(x, y, 0)]);
    }
  }

  /** The win sequence adds no makeUncovered after the notifications
      already sent. */
  lemma WinKeepsZeros(h: Game, g: Game, x: int, y: int, k: int, prior: seq<Event>)
    requires WellFormed(h) && WellFormed(g) && ZerosSettled(h, prior)
    ensures ZerosSettled(h, Win(g, x, y, k, prior).events)
  {
    var evs := Win(g, x, y, k, prior).events;
    var flags := MarkAll(AsFlag, BombCells(g));
    assert evs == prior + [GameWin(x, y, k)] + flags;
    forall i | |prior| < i < |evs| ensures !ZeroNotice(evs[i]) {
      assert evs[i] == flags[i - |prior| - 1];
    }
    assert !ZeroNotice(evs[|prior|]);
    forall i | 0 <= i < |prior| ensures evs[i] == prior[i] {
    }
  }

  /** Every trigger keeps the engine invariant and never raises remainingTiles. */
  lemma TriggerValid(g: Game, x: int, y: int)
    requires Valid(g)
    ensures var r := Trigger(g, x, y);
            r.Ok? ==> Valid(r.value.game) && r.value.game.remainingTiles <= g.remainingTiles
  {
    if !g.gameOver && InGrid(g.gridSize, (x, y)) {
      var t := At(g, (x, y));
      if !t.discovered && !t.flagged {
        if t.bomb {
          TriggerBomb(g, x, y);
        } else {
          TriggerSafe(g, x, y);
          var r := Trigger(g, x, y).value;
          var fill :| RevealTrace(g, x, y, NearbyBombs(g, x, y), fill, r);
        }
      }
    }
  }

  // ---------------------------------------------------------------------
  // toggle.

  /** toggle on a covered tile flips its flag and nothing else, and says so
      with makeFlag or makeDefault. */
  lemma ToggleFlips(g: Game, x: int, y: int)
    requires WellFormed(g) && !g.gameOver && InGrid(g.gridSize, (x, y)) && !At(g, (x, y)).discovered
    ensures Toggle(g, x, y).Ok?
    ensures var r := Toggle(g, x, y).value;
            var was := At(g, (x, y)).flagged;
            && r.game.remainingTiles == g.remainingTiles && r.game.gameOver == g.gameOver
            && At(r.game, (x, y)).flagged == !was
            && (forall a, b :: 0 <= a < g.gridSize && 0 <= b < g.gridSize ==>
                  r.game.tiles[a][b] == if (a, b) == (x, y) then SetFlagged(g.tiles[a][b], !was) else g.tiles[a][b])
            && r.events == [if was then MakeDefault(x, y) else MakeFlag(x, y)]
  {
  }

  /** Toggling the same tile twice restores the game exactly. */
  lemma ToggleTwice(g: Game, x: int, y: int)
    requires WellFormed(g)
    ensures var r1 := Toggle(g, x, y);
            r1.Ok? ==> var r2 := Toggle(r1.value.game, x, y);
                       r2.Ok? && r2.value.game == g
  {
    var r1 := Toggle(g, x, y);
    if r1.Ok? && !g.gameOver && !At(g, (x, y)).discovered {
      ToggleFlips(g, x, y);
      var h := r1.value.game;
      ToggleFlips(h, x, y);
      var h2 := Toggle(h, x, y).value.game;
      assert h2.tiles == g.tiles by {
        assert forall a :: 0 <= a < g.gridSize ==> h2.tiles[a] == g.tiles[a];
      }
    }
  }

  /** A flag change leaves the hidden-tile count alone. */
  lemma ReflagValid(g: Game, c: Cell, b: bool)
    requires Valid(g) && InGrid(g.gridSize, c)
    requires b ==> !At(g, c).discovered
    ensures Valid(UpdateTile(g, c, SetFlagged(At(g, c), b)))
  {
    GridCountUpdate(g.tiles, c.0, c.1, SetFlagged(At(g, c), b), IsHidden);
  }

  lemma ToggleValid(g: Game, x: int, y: int)
    requires Valid(g)
    ensures var r := Toggle(g, x, y);
            r.Ok? ==> Valid(r.value.game) && r.value.game.remainingTiles == g.remainingTiles
  {
    if !g.gameOver && InGrid(g.gridSize, (x, y)) && !At(g, (x, y)).discovered {
      ReflagValid(g, (x, y), !At(g, (x, y)).flagged);
    }
  }

  // ---------------------------------------------------------------------
  // hint.

  /** hint fails with IllegalStateException exactly when no covered, safe
      tile without bombs around is left; flagged tiles count as candidates. */
  lemma HintFails(g: Game, pick: int)
    requires WellFormed(g) && !g.gameOver
    requires |Available(g)| > 0 ==> 0 <= pick < |Available(g)|
    ensures Hint(g, pick).Err? <==>
            forall c :: InGrid(g.gridSize, c) && !At(g, c).discovered && !At(g, c).bomb ==> NearbyBombs(g, c.0, c.1) != 0
    ensures Hint(g, pick).Err? ==> Hint(g, pick).error == IllegalState
  {
    var av := Available(g);
    if |av| > 0 {
      assert av[pick] in av;
    } else {
      forall c | InGrid(g.gridSize, c) && !At(g, c).discovered && !At(g, c).bomb
        ensures NearbyBombs(g, c.0, c.1) != 0
      {
        assert c !in av;
      }
    }
  }

  /** A hint reveals a covered safe zero tile, unflagging it first: it can
      never lose, it discovers that tile, and it keeps the invariant. */
  lemma HintSafe(g: Game, pick: int)
    requires Valid(g) && !g.gameOver
    requires 0 <= pick < |Available(g)|
    ensures var c := Available(g)[pick];
            && InGrid(g.gridSize, c) && !At(g, c).discovered && !At(g, c).bomb && NearbyBombs(g, c.0, c.1) == 0
            && Hint(g, pick).Ok?
            && var r := Hint(g, pick).value;
               && Valid(r.game)
               && At(r.game, c).discovered
               && r.game.remainingTiles < g.remainingTiles
               && (forall e :: e in r.events ==> !e.GameLose? && !e.MakeBomb?)
  {
    var c := Available(g)[pick];
    HintChoice(g, pick);
    HintUnfold(g, pick);
    ReflagValid(g, c, false);
    SafeTriggerNeverLoses(UpdateTile(g, c, SetFlagged(At(g, c), false)), c.0, c.1);
  }

  /** Triggering a covered, unflagged, safe tile discovers it and sends
      neither gameLose nor makeBomb. */
  lemma SafeTriggerNeverLoses(g: Game, x: int, y: int)
    requires Valid(g) && !g.gameOver && InGrid(g.gridSize, (x, y))
    requires !At(g, (x, y)).discovered && !At(g, (x, y)).flagged && !At(g, (x, y)).bomb
    ensures Trigger(g, x, y).Ok?
    ensures var r := Trigger(g, x, y).value;
            && Valid(r.game)
            && At(r.game, (x, y)).discovered
            && r.game.remainingTiles < g.remainingTiles
            && (forall e :: e in r.events ==> !e.GameLose? && !e.MakeBomb?)
  {
    TriggerSafe(g, x, y);
    var r := Trigger(g, x, y).value;
    var fill :| RevealTrace(g, x, y, NearbyBombs(g, x, y), fill, r);
    RevealNeverLoses(g, x, y, NearbyBombs(g, x, y), fill, r);
  }

  /** hint is trigger on its chosen tile, once that tile is unflagged. */
  lemma HintUnfold(g: Game, pick: int)
    requires Valid(g) && !g.gameOver
    requires 0 <= pick < |Available(g)|
    ensures var c := Available(g)[pick];
            && InGrid(g.gridSize, c)
            && Hint(g, pick) == Trigger(UpdateTile(g, c, SetFlagged(At(g, c), false)), c.0, c.1)
  {
    HintChoice(g, pick);
  }

  /** The tile hint picks is covered, safe and has no bombs around it. */
  lemma HintChoice(g: Game, pick: int)
    requires WellFormed(g)
    requires 0 <= pick < |Available(g)|
    ensures var c := Available(g)[pick];
            InGrid(g.gridSize, c) && !At(g, c).discovered && !At(g, c).bomb && NearbyBombs(g, c.0, c.1) == 0
  {
    assert Available(g)[pick] in Available(g);
  }

  /** A safe trigger sends neither gameLose nor makeBomb. */
  lemma RevealNeverLoses(g: Game, x: int, y: int, k: int, fill: seq<Event>, r: Step)
    requires WellFormed(g) && WellFormed(r.game) && RevealTrace(g, x, y, k, fill, r)
    ensures forall e :: e in r.events ==> !e.GameLose? && !e.MakeBomb?
  {
    forall e | e in r.events ensures !e.GameLose? && !e.MakeBomb? {
      var i :| 0 <= i < |r.events| && r.events[i] == e;
      if i < |fill| {
        assert r.events[..|fill|][i] == fill[i];
        assert Announces(g, fill[i]);
      } else if r.game.gameOver && i > |fill| {
        var tail := r.events[|fill| + 1..];
        assert e == tail[i - |fill| - 1];
        assert tail[i - |fill| - 1] == MarkEvent(AsFlag, (tail[i - |fill| - 1].x, tail[i - |fill| - 1].y));
      }
    }
  }

  lemma HintValid(g: Game, pick: int)
    requires Valid(g)
    requires !g.gameOver && |Available(g)| > 0 ==> 0 <= pick < |Available(g)|
    ensures var r := Hint(g, pick);
            r.Ok? ==> Valid(r.value.game) && r.value.game.remainingTiles <= g.remainingTiles
  {
    if !g.gameOver && |Available(g)| > 0 {
      HintSafe(g, pick);
    }
  }

  // ---------------------------------------------------------------------
  // The final fields of every tile.

  /** trigger never moves a tile or changes whether it is a bomb. */
  lemma TriggerKeepsBoard(g: Game, x: int, y: int)
    requires Valid(g)
    ensures Trigger(g, x, y).Ok? ==> SameBoard(g, Trigger(g, x, y).value.game)
  {
    if !g.gameOver && InGrid(g.gridSize, (x, y)) {
      var t := At(g, (x, y));
      if !t.discovered && !t.flagged && !t.bomb {
        TriggerSafe(g, x, y);
        var r := Trigger(g, x, y).value;
        var fill :| RevealTrace(g, x, y, NearbyBombs(g, x, y), fill, r);
        RevealSameBoard(g, x, y, NearbyBombs(g, x, y), fill, r);
      }
    }
  }

  lemma RevealSameBoard(g: Game, x: int, y: int, k: int, fill: seq<Event>, r: Step)
    requires WellFormed(g) && WellFormed(r.game) && RevealTrace(g, x, y, k, fill, r)
    ensures SameBoard(g, r.game)
  {
    UncoversSameBoard(g, r.game.(gameOver := g.gameOver), EventCells(fill) + {(x, y)});
  }

  /** Neither does toggleFlag. */
  lemma ToggleKeepsBoard(g: Game, x: int, y: int)
    requires WellFormed(g)
    ensures Toggle(g, x, y).Ok? ==> SameBoard(g, Toggle(g, x, y).value.game)
  {
  }

  /** Nor does hint, which unflags its tile and then triggers it. */
  lemma HintKeepsBoard(g: Game, pick: int)
    requires Valid(g)
    requires !g.gameOver && |Available(g)| > 0 ==> 0 <= pick < |Available(g)|
    ensures Hint(g, pick).Ok? ==> SameBoard(g, Hint(g, pick).value.game)
  {
    if !g.gameOver && |Available(g)| > 0 {
      var c := Available(g)[pick];
      HintChoice(g, pick);
      HintUnfold(g, pick);
      ReflagValid(g, c, false);
      TriggerKeepsBoard(UpdateTile(g, c, SetFlagged(At(g, c), false)), c.0, c.1);
    }
  }
}
