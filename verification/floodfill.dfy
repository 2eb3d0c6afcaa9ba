/** What one run of the zero-region flood-fill does to a valid game: it
    discovers only covered, unflagged, non-bomb tiles, each once, announces
    each with its bomb count, lowers remainingTiles by one per discovery, and
    reports a win exactly when that count reaches zero. */
module FloodFill {
  import opened Tiles
  import opened Board
  import opened Minesweeper

  /** `e` announces the discovery of a tile that is covered, unflagged and
      safe in `g`, with that tile's bomb count. */
  predicate Announces(g: Game, e: Event)
    requires WellFormed(g)
  {
    && e.MakeUncovered?
    && InGrid(g.gridSize, (e.x, e.y))
    && !At(g, (e.x, e.y)).discovered
    && !At(g, (e.x, e.y)).flagged
    && !At(g, (e.x, e.y)).bomb
    && e.n == NearbyBombs(g, e.x, e.y)
  }

  function EventCells(evs: seq<Event>): set<Cell> {
    set e | e in evs :: (e.x, e.y)
  }

  /** No two notifications are about the same cell. */
  predicate DistinctCells(evs: seq<Event>) {
    forall i, j :: 0 <= i < j < |evs| ==> (evs[i].x, evs[i].y) != (evs[j].x, evs[j].y)
  }

  /** `h` is `g` with the tiles at `cs` discovered and nothing else changed. */
  predicate Uncovers(g: Game, h: Game, cs: set<Cell>)
    requires WellFormed(g) && WellFormed(h)
  {
    && h.gridSize == g.gridSize
    && h.gameOver == g.gameOver
    && forall a, b :: 0 <= a < g.gridSize && 0 <= b < g.gridSize ==>
         h.tiles[a][b] == if (a, b) in cs then SetDiscovered(g.tiles[a][b], true) else g.tiles[a][b]
  }

  /** The summary of a flood-fill run `r` started in state `g`. */
  predicate FloodOk(g: Game, r: Flood)
    requires WellFormed(g) && WellFormed(r.game)
  {
    && Valid(r.game)
    && (forall i :: 0 <= i < |r.events| ==> Announces(g, r.events[i]))
    && DistinctCells(r.events)
    && Uncovers(g, r.game, EventCells(r.events))
    && r.game.remainingTiles == g.remainingTiles - |r.events|
    && (r.won <==> r.game.remainingTiles == 0)
  }

  lemma UncoversSameBoard(g: Game, h: Game, cs: set<Cell>)
    requires WellFormed(g) && WellFormed(h) && Uncovers(g, h, cs)
    ensures SameBoard(g, h)
  {
  }

  lemma {:induction false} BombsAmongSameBoard(g: Game, h: Game, cs: seq<Cell>)
    requires WellFormed(g) && WellFormed(h) && SameBoard(g, h)
    requires forall c :: c in cs ==> InGrid(g.gridSize, c)
    ensures BombsAmong(g, cs) == BombsAmong(h, cs)
  {
    if |cs| > 0 {
      assert cs[0] in cs;
      assert At(g, cs[0]).bomb == At(h, cs[0]).bomb;
      BombsAmongSameBoard(g, h, cs[1..]);
    }
  }

  /** Bomb counts depend on the bomb layout only. */
  lemma NearbyBombsSameBoard(g: Game, h: Game, x: int, y: int)
    requires WellFormed(g) && WellFormed(h) && SameBoard(g, h)
    ensures NearbyBombs(g, x, y) == NearbyBombs(h, x, y)
  {
    BombsAmongSameBoard(g, h, NearbyTiles(g.gridSize, x, y));
  }

  /** Discovering one covered, unflagged, safe tile keeps the invariant,
      given that remainingTiles goes down by one with it. */
  lemma DiscoverValid(g: Game, c: Cell)
    requires Valid(g) && InGrid(g.gridSize, c)
    requires !At(g, c).discovered && !At(g, c).flagged && !At(g, c).bomb
    ensures var g1 := DiscoverOne(g, c);
            Valid(g1) && g.remainingTiles >= 1
  {
    var t := SetDiscovered(At(g, c), true);
    GridCountUpdate(g.tiles, c.0, c.1, t, IsHidden);
  }

  /** One discovery as a flood-fill run of its own. */
  lemma DiscoverOk(g: Game, c: Cell)
    requires Valid(g) && InGrid(g.gridSize, c)
    requires !At(g, c).discovered && !At(g, c).flagged && !At(g, c).bomb
    ensures var g1 := DiscoverOne(g, c);
            FloodOk(g, Flood(g1.remainingTiles == 0, g1, [MakeUncovered(c.0, c.1, NearbyBombs(g, c.0, c.1))]))
  {
    DiscoverValid(g, c);
    var g1 := DiscoverOne(g, c);
    var evs := [MakeUncovered(c.0, c.1, NearbyBombs(g, c.0, c.1))];
    var r := Flood(g1.remainingTiles == 0, g1, evs);
    assert forall i :: 0 <= i < |r.events| ==> Announces(g, r.events[i]) by {
      assert Announces(g, evs[0]);
    }
    assert DistinctCells(evs);
    assert Uncovers(g, g1, EventCells(evs)) by {
      EventCellsSingle(evs[0]);
      assert Uncovers(g, g1, {c});
    }
  }

  lemma EventCellsSingle(e: Event)
    ensures EventCells([e]) == {(e.x, e.y)}
  {
    assert e in [e];
    assert forall d :: d in [e] ==> d == e;
  }

  lemma EventCellsConcat(a: seq<Event>, b: seq<Event>)
    ensures EventCells(a + b) == EventCells(a) + EventCells(b)
  {
    assert forall e :: e in a + b <==> e in a || e in b;
  }

  /** Two runs one after the other are one run. */
  lemma FloodCompose(g: Game, a: Flood, b: Flood)
    requires WellFormed(g) && WellFormed(a.game) && WellFormed(b.game)
    requires FloodOk(g, a) && FloodOk(a.game, b)
    ensures FloodOk(g, Flood(b.won, b.game, a.events + b.events))
  {
    var n := g.gridSize;
    var evs := a.events + b.events;
    SecondRunAnnounces(g, a, b);
    AnnouncesConcat(g, a.events, b.events);
    DistinctConcat(a.events, b.events);
    EventCellsConcat(a.events, b.events);
    forall x, y | 0 <= x < n && 0 <= y < n
      ensures b.game.tiles[x][y] == if (x, y) in EventCells(evs) then SetDiscovered(g.tiles[x][y], true) else g.tiles[x][y]
    {
    }
  }

  /** What the second of two runs announces, the first state would have
      announced too, and none of it was announced by the first run. */
  lemma SecondRunAnnounces(g: Game, a: Flood, b: Flood)
    requires WellFormed(g) && WellFormed(a.game) && WellFormed(b.game)
    requires FloodOk(g, a) && FloodOk(a.game, b)
    ensures forall i :: 0 <= i < |b.events| ==> Announces(g, b.events[i])
    ensures forall i :: 0 <= i < |b.events| ==> (b.events[i].x, b.events[i].y) !in EventCells(a.events)
  {
    UncoversSameBoard(g, a.game, EventCells(a.events));
    forall i | 0 <= i < |b.events|
      ensures Announces(g, b.events[i])
      ensures (b.events[i].x, b.events[i].y) !in EventCells(a.events)
    {
      var e := b.events[i];
      assert Announces(a.game, e);
      NearbyBombsSameBoard(g, a.game, e.x, e.y);
    }
  }

  lemma AnnouncesConcat(g: Game, a: seq<Event>, b: seq<Event>)
    requires WellFormed(g)
    requires forall i :: 0 <= i < |a| ==> Announces(g, a[i])
    requires forall i :: 0 <= i < |b| ==> Announces(g, b[i])
    ensures forall i :: 0 <= i < |a + b| ==> Announces(g, (a + b)[i])
  {
    forall i | 0 <= i < |a + b| ensures Announces(g, (a + b)[i]) {
      if i >= |a| {
        assert (a + b)[i] == b[i - |a|];
      }
    }
  }

  /** Two lists of distinct cells, none shared, join into one. */
  lemma DistinctConcat(a: seq<Event>, b: seq<Event>)
    requires DistinctCells(a) && DistinctCells(b)
    requires forall i :: 0 <= i < |b| ==> (b[i].x, b[i].y) !in EventCells(a)
    ensures DistinctCells(a + b)
  {
    var evs := a + b;
    forall i, j | 0 <= i < j < |evs| ensures (evs[i].x, evs[i].y) != (evs[j].x, evs[j].y) {
      if i < |a| && j >= |a| {
        assert evs[i] in a;
        assert evs[j] == b[j - |a|];
      } else if i >= |a| {
        assert evs[i] == b[i - |a|];
        assert evs[j] == b[j - |a|];
      }
    }
  }

  /** The flood-fill from a list of non-bomb cells in a valid game keeps the
      invariant and is summarised by FloodOk. Each recursive step follows a
      fresh discovery, so remainingTiles bounds the recursion. */
  lemma {:induction false} UncoverFromOk(g: Game, cs: seq<Cell>)
    requires Valid(g) && g.remainingTiles > 0
    requires forall c :: c in cs ==> InGrid(g.gridSize, c) && !At(g, c).bomb
    ensures FloodOk(g, UncoverFrom(g, cs))
    ensures Reached(cs, UncoverFrom(g, cs).events)
    decreases g.remainingTiles, 3, |cs|
  {
    UncoverFromReached(g, cs);
    if |cs| > 0 {
      var c := cs[0];
      var near := At(g, c);
      if near.discovered || near.flagged {
        assert UncoverFrom(g, cs) == UncoverFrom(g, cs[1..]);
        UncoverFromOk(g, cs[1..]);
      } else {
        var n := NearbyBombs(g, c.0, c.1);
        var g1 := DiscoverOne(g, c);
        var ev := [MakeUncovered(c.0, c.1, n)];
        DiscoverOk(g, c);
        if g1.remainingTiles <= 0 {
          assert UncoverFrom(g, cs) == Flood(true, g1, ev);
        } else if n == 0 {
          ZeroStepOk(g, cs);
        } else {
          NonZeroStepOk(g, cs, g1, ev);
        }
      }
    }
  }

  /** The branch of UncoverFromOk where the newly discovered tile has a
      bomb around it: the loop goes on with the next cell. */
  lemma {:induction false} NonZeroStepOk(g: Game, cs: seq<Cell>, g1: Game, ev: seq<Event>)
    requires Valid(g) && g.remainingTiles > 0
    requires forall c :: c in cs ==> InGrid(g.gridSize, c) && !At(g, c).bomb
    requires |cs| > 0 && !At(g, cs[0]).discovered && !At(g, cs[0]).flagged
    requires NearbyBombs(g, cs[0].0, cs[0].1) != 0
    requires g1 == DiscoverOne(g, cs[0])
    requires ev == [MakeUncovered(cs[0].0, cs[0].1, NearbyBombs(g, cs[0].0, cs[0].1))]
    requires g1.remainingTiles > 0
    requires WellFormed(g1) && FloodOk(g, Flood(false, g1, ev))
    ensures FloodOk(g, UncoverFrom(g, cs))
    decreases g.remainingTiles, 2
  {
    var rest := UncoverFrom(g1, cs[1..]);
    assert UncoverFrom(g, cs) == Flood(rest.won, rest.game, ev + rest.events);
    assert FloodOk(g1, rest) by {
      assert SameBoard(g, g1);
      UncoverFromOk(g1, cs[1..]);
    }
    FloodCompose(g, Flood(false, g1, ev), rest);
  }

  /** The branch of UncoverFromOk where the newly discovered tile is a zero:
      the fill recurses into its neighbours, then the loop goes on. */
  lemma {:induction false} ZeroStepOk(g: Game, cs: seq<Cell>)
    requires Valid(g) && g.remainingTiles > 0
    requires forall c :: c in cs ==> InGrid(g.gridSize, c) && !At(g, c).bomb
    requires |cs| > 0 && !At(g, cs[0]).discovered && !At(g, cs[0]).flagged
    requires NearbyBombs(g, cs[0].0, cs[0].1) == 0
    requires DiscoverOne(g, cs[0]).remainingTiles > 0
    ensures FloodOk(g, UncoverFrom(g, cs))
    decreases g.remainingTiles, 2
  {
    var c := cs[0];
    var g1 := DiscoverOne(g, c);
    var sub := UncoverFrom(g1, NearbyTiles(g.gridSize, c.0, c.1));
    var mid := Flood(sub.won, sub.game, [MakeUncovered(c.0, c.1, 0)] + sub.events);
    ZeroStepInner(g, c);
    UnfoldZero(g, cs);
    if !sub.won {
      ContinueOk(g, cs, mid);
    }
  }

  /** The recursive fill around a freshly discovered zero tile. */
  lemma {:induction false} ZeroStepInner(g: Game, c: Cell)
    requires Valid(g) && InGrid(g.gridSize, c) && !At(g, c).bomb
    requires !At(g, c).discovered && !At(g, c).flagged
    requires NearbyBombs(g, c.0, c.1) == 0
    requires DiscoverOne(g, c).remainingTiles > 0
    ensures var g1 := DiscoverOne(g, c);
            var sub := UncoverFrom(g1, NearbyTiles(g.gridSize, c.0, c.1));
            FloodOk(g, Flood(sub.won, sub.game, [MakeUncovered(c.0, c.1, 0)] + sub.events))
    decreases g.remainingTiles, 1
  {
    var g1 := DiscoverOne(g, c);
    var around := NearbyTiles(g.gridSize, c.0, c.1);
    DiscoverOk(g, c);
    NearbyBombsZero(g, c.0, c.1);
    assert SameBoard(g, g1);
    assert forall d :: d in around ==> InGrid(g1.gridSize, d) && !At(g1, d).bomb;
    UncoverFromOk(g1, around);
    FloodCompose(g, Flood(false, g1, [MakeUncovered(c.0, c.1, 0)]), UncoverFrom(g1, around));
  }

  /** One unfolding of UncoverFrom when its first cell is a covered zero. */
  lemma UnfoldZero(g: Game, cs: seq<Cell>)
    requires WellFormed(g) && forall c :: c in cs ==> InGrid(g.gridSize, c)
    requires |cs| > 0 && !At(g, cs[0]).discovered && !At(g, cs[0]).flagged
    requires NearbyBombs(g, cs[0].0, cs[0].1) == 0
    requires DiscoverOne(g, cs[0]).remainingTiles > 0
    ensures var g1 := DiscoverOne(g, cs[0]);
            var ev := [MakeUncovered(cs[0].0, cs[0].1, 0)];
            var sub := UncoverFrom(g1, NearbyTiles(g.gridSize, cs[0].0, cs[0].1));
            UncoverFrom(g, cs) ==
              if sub.won then Flood(true, sub.game, ev + sub.events)
              else
                var rest := UncoverFrom(sub.game, cs[1..]);
                Flood(rest.won, rest.game, ev + sub.events + rest.events)
  {
  }

  /** The loop going on with the cells after the first, once the first one's
      run `done` has ended without a win. */
  lemma {:induction false} ContinueOk(g: Game, cs: seq<Cell>, done: Flood)
    requires Valid(g) && |cs| > 0
    requires forall c :: c in cs ==> InGrid(g.gridSize, c) && !At(g, c).bomb
    requires WellFormed(done.game) && FloodOk(g, done) && !done.won && |done.events| > 0
    ensures var rest := UncoverFrom(done.game, cs[1..]);
            FloodOk(g, Flood(rest.won, rest.game, done.events + rest.events))
    decreases g.remainingTiles, 1
  {
    UncoversSameBoard(g, done.game, EventCells(done.events));
    forall d | d in cs[1..] ensures InGrid(done.game.gridSize, d) && !At(done.game, d).bomb {
      assert d in cs;
      assert At(done.game, d).bomb == At(g, d).bomb;
    }
    UncoverFromOk(done.game, cs[1..]);
    FloodCompose(g, done, UncoverFrom(done.game, cs[1..]));
  }

  // ---------------------------------------------------------------------
  // Completeness: what a flood-fill run must uncover.

  /** The tile at `c`, if it is on the grid, is discovered or flagged: the
      fill has nothing left to do there. */
  predicate Settled(h: Game, c: Cell)
    requires WellFormed(h)
  {
    InGrid(h.gridSize, c) ==> At(h, c).discovered || At(h, c).flagged
  }

  /** Every neighbour of `c` is settled. */
  ghost predicate AroundSettled(h: Game, c: Cell)
    requires WellFormed(h)
  {
    forall d :: Adjacent(d, c) ==> Settled(h, d)
  }

  /** Every cell of `cs` is settled. */
  predicate CellsSettled(h: Game, cs: seq<Cell>)
    requires WellFormed(h)
  {
    forall c :: c in cs ==> Settled(h, c)
  }

  /** Around every zero tile that `evs` announces, everything is settled. */
  ghost predicate ZerosSettled(h: Game, evs: seq<Event>)
    requires WellFormed(h)
  {
    forall i :: 0 <= i < |evs| && ZeroNotice(evs[i]) ==> AroundSettled(h, (evs[i].x, evs[i].y))
  }

  /** The completeness half of a run over `cs` that left `h` and sent `evs`:
      each cell it was given is discovered or flagged, and so is every
      neighbour of each zero tile it announced. */
  ghost predicate FloodComplete(h: Game, cs: seq<Cell>, evs: seq<Event>)
    requires WellFormed(h)
  {
    CellsSettled(h, cs) && ZerosSettled(h, evs)
  }

  /** Discovering more tiles never unsettles one. */
  lemma SettledGrows(h: Game, h2: Game, s: set<Cell>)
    requires WellFormed(h) && WellFormed(h2) && Uncovers(h, h2, s)
    ensures forall c :: Settled(h, c) ==> Settled(h2, c)
  {
  }

  lemma CompleteGrows(h: Game, h2: Game, s: set<Cell>, cs: seq<Cell>, evs: seq<Event>)
    requires WellFormed(h) && WellFormed(h2) && Uncovers(h, h2, s)
    requires FloodComplete(h, cs, evs)
    ensures FloodComplete(h2, cs, evs)
  {
    SettledGrows(h, h2, s);
  }

  lemma ZerosSettledConcat(h: Game, a: seq<Event>, b: seq<Event>)
    requires WellFormed(h) && ZerosSettled(h, a) && ZerosSettled(h, b)
    ensures ZerosSettled(h, a + b)
  {
    forall i | 0 <= i < |a + b| && ZeroNotice((a + b)[i])
      ensures AroundSettled(h, ((a + b)[i].x, (a + b)[i].y))
    {
      if i >= |a| {
        assert (a + b)[i] == b[i - |a|];
      }
    }
  }

  /** A Valid game with no covered safe tile left has every safe tile
      discovered. */
  lemma NoHiddenLeft(h: Game, c: Cell)
    requires Valid(h) && h.remainingTiles == 0 && InGrid(h.gridSize, c) && !At(h, c).bomb
    ensures At(h, c).discovered
  {
    var t := At(h, c).(bomb := true);
    GridCountUpdate(h.tiles, c.0, c.1, t, IsHidden);
    assert !Holds(IsHidden, t);
  }

  /** A winning run is complete: with nothing covered left, every safe tile,
      and so every neighbour of a zero tile, is discovered. */
  lemma WonComplete(g: Game, cs: seq<Cell>, r: Flood)
    requires Valid(g) && WellFormed(r.game) && FloodOk(g, r) && r.won
    requires forall c :: c in cs ==> InGrid(g.gridSize, c) && !At(g, c).bomb
    ensures FloodComplete(r.game, cs, r.events)
  {
    var h := r.game;
    UncoversSameBoard(g, h, EventCells(r.events));
    forall c | InGrid(h.gridSize, c) && !At(h, c).bomb ensures At(h, c).discovered {
      NoHiddenLeft(h, c);
    }
    forall i | 0 <= i < |r.events| && ZeroNotice(r.events[i])
      ensures AroundSettled(h, (r.events[i].x, r.events[i].y))
    {
      var e := r.events[i];
      assert Announces(g, e);
      NearbyBombsZero(g, e.x, e.y);
    }
  }

  /** The flood-fill over the non-bomb cells `cs` leaves each of them
      discovered or flagged, and every neighbour of each zero tile it
      announces too: it stops short only at flags. */
  lemma {:induction false} UncoverFromComplete(g: Game, cs: seq<Cell>)
    requires Valid(g) && g.remainingTiles > 0
    requires forall c :: c in cs ==> InGrid(g.gridSize, c) && !At(g, c).bomb
    ensures var r := UncoverFrom(g, cs);
            FloodComplete(r.game, cs, r.events)
    decreases g.remainingTiles, |cs|, 1
  {
    var r := UncoverFrom(g, cs);
    UncoverFromOk(g, cs);
    if r.won {
      WonComplete(g, cs, r);
    } else if |cs| > 0 {
      var c := cs[0];
      if At(g, c).discovered || At(g, c).flagged {
        assert r == UncoverFrom(g, cs[1..]);
        UncoverFromComplete(g, cs[1..]);
        SettledGrows(g, r.game, EventCells(r.events));
        assert Settled(r.game, c);
      } else if NearbyBombs(g, c.0, c.1) == 0 {
        ZeroComplete(g, cs);
      } else {
        NumberComplete(g, cs);
      }
    }
  }

  /** UncoverFromComplete when the first cell is a covered tile with a bomb
      around it. */
  lemma {:induction false} NumberComplete(g: Game, cs: seq<Cell>)
    requires Valid(g) && g.remainingTiles > 0
    requires forall c :: c in cs ==> InGrid(g.gridSize, c) && !At(g, c).bomb
    requires |cs| > 0 && !At(g, cs[0]).discovered && !At(g, cs[0]).flagged
    requires NearbyBombs(g, cs[0].0, cs[0].1) != 0
    requires !UncoverFrom(g, cs).won
    ensures var r := UncoverFrom(g, cs);
            FloodComplete(r.game, cs, r.events)
    decreases g.remainingTiles, |cs|, 0
  {
    var c := cs[0];
    var g1 := DiscoverOne(g, c);
    var ev := [MakeUncovered(c.0, c.1, NearbyBombs(g, c.0, c.1))];
    NumberStart(g, cs);
    var rest := UncoverFrom(g1, cs[1..]);
    UncoverFromComplete(g1, cs[1..]);
    UncoverFromOk(g1, cs[1..]);
    SettledGrows(g1, rest.game, EventCells(rest.events));
    assert Settled(rest.game, c) by {
      assert Settled(g1, c);
    }
    assert ZerosSettled(rest.game, ev);
    ZerosSettledConcat(rest.game, ev, rest.events);
  }

  /** The first step of NumberComplete: discover the head cell, announce
      its count, and go on with the rest of the list. */
  lemma NumberStart(g: Game, cs: seq<Cell>)
    requires Valid(g) && g.remainingTiles > 0
    requires forall c :: c in cs ==> InGrid(g.gridSize, c) && !At(g, c).bomb
    requires |cs| > 0 && !At(g, cs[0]).discovered && !At(g, cs[0]).flagged
    requires NearbyBombs(g, cs[0].0, cs[0].1) != 0
    requires !UncoverFrom(g, cs).won
    ensures var g1 := DiscoverOne(g, cs[0]);
            && Valid(g1) && g1.remainingTiles > 0
            && (forall d :: d in cs[1..] ==> InGrid(g1.gridSize, d) && !At(g1, d).bomb)
            && var rest := UncoverFrom(g1, cs[1..]);
               UncoverFrom(g, cs)
               == Flood(rest.won, rest.game, [MakeUncovered(cs[0].0, cs[0].1, NearbyBombs(g, cs[0].0, cs[0].1))] + rest.events)
  {
    HeadDiscovered(g, cs);
    NumberUnfolds(g, cs);
  }

  /** Discovering the head cell keeps the game valid and the rest of the
      list in the grid and free of bombs. */
  lemma HeadDiscovered(g: Game, cs: seq<Cell>)
    requires Valid(g)
    requires forall c :: c in cs ==> InGrid(g.gridSize, c) && !At(g, c).bomb
    requires |cs| > 0 && !At(g, cs[0]).discovered && !At(g, cs[0]).flagged
    ensures var g1 := DiscoverOne(g, cs[0]);
            && Valid(g1)
            && (forall d :: d in cs[1..] ==> InGrid(g1.gridSize, d) && !At(g1, d).bomb)
  {
    var g1 := DiscoverOne(g, cs[0]);
    DiscoverValid(g, cs[0]);
    assert SameBoard(g, g1);
    forall d | d in cs[1..] ensures InGrid(g1.gridSize, d) && !At(g1, d).bomb {
      assert d in cs;
    }
  }

  /** A covered head cell with bombs around, when the loop does not win:
      announce it and go on with the rest of the list. */
  lemma NumberUnfolds(g: Game, cs: seq<Cell>)
    requires WellFormed(g) && forall c :: c in cs ==> InGrid(g.gridSize, c)
    requires |cs| > 0 && !At(g, cs[0]).discovered && !At(g, cs[0]).flagged
    requires NearbyBombs(g, cs[0].0, cs[0].1) != 0
    requires !UncoverFrom(g, cs).won
    ensures var g1 := DiscoverOne(g, cs[0]);
            && g1.remainingTiles > 0
            && var rest := UncoverFrom(g1, cs[1..]);
               UncoverFrom(g, cs)
               == Flood(rest.won, rest.game, [MakeUncovered(cs[0].0, cs[0].1, NearbyBombs(g, cs[0].0, cs[0].1))] + rest.events)
  {
  }

  /** UncoverFromComplete when the first cell is a covered zero: the inner
      fill settles its neighbours, and the loop then goes on. */
  lemma {:induction false} ZeroComplete(g: Game, cs: seq<Cell>)
    requires Valid(g) && g.remainingTiles > 0
    requires forall c :: c in cs ==> InGrid(g.gridSize, c) && !At(g, c).bomb
    requires |cs| > 0 && !At(g, cs[0]).discovered && !At(g, cs[0]).flagged
    requires NearbyBombs(g, cs[0].0, cs[0].1) == 0
    requires !UncoverFrom(g, cs).won
    ensures var r := UncoverFrom(g, cs);
            FloodComplete(r.game, cs, r.events)
    decreases g.remainingTiles, |cs|, 0
  {
    var c := cs[0];
    var g1 := DiscoverOne(g, c);
    var around := NearbyTiles(g.gridSize, c.0, c.1);
    DiscoverValid(g, c);
    assert g1.remainingTiles > 0;
    UnfoldZero(g, cs);
    var sub := UncoverFrom(g1, around);
    InnerFill(g, c);
    var rest := UncoverFrom(sub.game, cs[1..]);
    forall d | d in cs[1..] ensures InGrid(sub.game.gridSize, d) && !At(sub.game, d).bomb {
      assert d in cs;
    }
    UncoverFromOk(sub.game, cs[1..]);
    UncoverFromComplete(sub.game, cs[1..]);
    CompleteGrows(sub.game, rest.game, EventCells(rest.events), [c] + around, [MakeUncovered(c.0, c.1, 0)] + sub.events);
    ZerosSettledConcat(rest.game, [MakeUncovered(c.0, c.1, 0)] + sub.events, rest.events);
    assert ([MakeUncovered(c.0, c.1, 0)] + sub.events) + rest.events
        == [MakeUncovered(c.0, c.1, 0)] + sub.events + rest.events;
    assert c in [c] + around;
  }

  /** The inner fill around the freshly discovered zero tile `c`, when it
      does not win: it keeps Valid and the bombs, and settles `c`, its
      neighbours and the neighbours of every zero it announces. */
  lemma InnerFill(g: Game, c: Cell)
    requires Valid(g) && InGrid(g.gridSize, c) && !At(g, c).bomb
    requires !At(g, c).discovered && !At(g, c).flagged
    requires NearbyBombs(g, c.0, c.1) == 0
    requires DiscoverOne(g, c).remainingTiles > 0
    requires !UncoverFrom(DiscoverOne(g, c), NearbyTiles(g.gridSize, c.0, c.1)).won
    ensures var sub := UncoverFrom(DiscoverOne(g, c), NearbyTiles(g.gridSize, c.0, c.1));
            && Valid(sub.game) && sub.game.remainingTiles > 0 && SameBoard(g, sub.game)
            && FloodComplete(sub.game, [c] + NearbyTiles(g.gridSize, c.0, c.1), [MakeUncovered(c.0, c.1, 0)] + sub.events)
    decreases g.remainingTiles, 0, 1
  {
    var g1 := DiscoverOne(g, c);
    var around := NearbyTiles(g.gridSize, c.0, c.1);
    var sub := UncoverFrom(g1, around);
    InnerFillSound(g, c);
    UncoverFromComplete(g1, around);
    SettledGrows(g1, sub.game, EventCells(sub.events));
    assert Settled(sub.game, c) by {
      assert Settled(g1, c);
    }
    SettledAround(sub.game, c);
    ZeroNoticeSettled(sub.game, c);
    ZerosSettledConcat(sub.game, [MakeUncovered(c.0, c.1, 0)], sub.events);
    CellsSettledCons(sub.game, c, around);
  }

  /** The soundness facts InnerFill needs about the inner fill. */
  lemma InnerFillSound(g: Game, c: Cell)
    requires Valid(g) && InGrid(g.gridSize, c) && !At(g, c).bomb
    requires !At(g, c).discovered && !At(g, c).flagged
    requires NearbyBombs(g, c.0, c.1) == 0
    requires DiscoverOne(g, c).remainingTiles > 0
    requires !UncoverFrom(DiscoverOne(g, c), NearbyTiles(g.gridSize, c.0, c.1)).won
    ensures var g1 := DiscoverOne(g, c);
            var sub := UncoverFrom(g1, NearbyTiles(g.gridSize, c.0, c.1));
            && Valid(g1) && g1.remainingTiles > 0
            && (forall d :: d in NearbyTiles(g.gridSize, c.0, c.1) ==> InGrid(g1.gridSize, d) && !At(g1, d).bomb)
            && FloodOk(g1, sub) && sub.game.remainingTiles > 0 && SameBoard(g, sub.game)
    decreases g.remainingTiles, 0, 0
  {
    var g1 := DiscoverOne(g, c);
    var around := NearbyTiles(g.gridSize, c.0, c.1);
    ZeroStart(g, c);
    var sub := UncoverFrom(g1, around);
    UncoverFromOk(g1, around);
    UncoversSameBoard(g1, sub.game, EventCells(sub.events));
  }

  /** Discovering a covered zero tile leaves a valid game in which its
      neighbours are all on the grid and safe. */
  lemma ZeroStart(g: Game, c: Cell)
    requires Valid(g) && InGrid(g.gridSize, c) && !At(g, c).bomb
    requires !At(g, c).discovered && !At(g, c).flagged
    requires NearbyBombs(g, c.0, c.1) == 0
    ensures var g1 := DiscoverOne(g, c);
            && Valid(g1) && SameBoard(g, g1)
            && (forall d :: d in NearbyTiles(g.gridSize, c.0, c.1) ==> InGrid(g1.gridSize, d) && !At(g1, d).bomb)
  {
    var g1 := DiscoverOne(g, c);
    DiscoverValid(g, c);
    NearbyBombsZero(g, c.0, c.1);
    assert SameBoard(g, g1);
  }

  /** Settling the neighbour list of `c` settles everything around `c`. */
  lemma SettledAround(h: Game, c: Cell)
    requires WellFormed(h) && CellsSettled(h, NearbyTiles(h.gridSize, c.0, c.1))
    ensures AroundSettled(h, c)
  {
    forall d | Adjacent(d, c) && InGrid(h.gridSize, d) ensures Settled(h, d) {
      assert d in NearbyTiles(h.gridSize, c.0, c.1);
    }
  }

  lemma ZeroNoticeSettled(h: Game, c: Cell)
    requires WellFormed(h) && AroundSettled(h, c)
    ensures ZerosSettled(h, [MakeUncovered(c.0, c.1, 0)])
  {
  }

  lemma CellsSettledCons(h: Game, c: Cell, cs: seq<Cell>)
    requires WellFormed(h) && Settled(h, c) && CellsSettled(h, cs)
    ensures CellsSettled(h, [c] + cs)
  {
  }
}
