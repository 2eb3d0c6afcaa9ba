# Minesweeper engine in Dafny

This project models the game engine of CablePlays/Minesweeper, a Java library for Minesweeper. A host class extends the abstract `Minesweeper` class and supplies six drawing callbacks. The engine owns an n-by-n grid of `Tile`s and counts `remainingTiles`, the safe tiles still covered. It has a `gameOver` latch and four player actions: `trigger`, `toggle`, `hint` and `reset`.

Every action is modelled as a pure function. It maps the engine state `Game` to a `Step`, which holds the next state and the callbacks fired, in firing order (`Event`: `MakeDefault`, `MakeUncovered`, `MakeFlag`, `MakeBomb`, `GameLose`, `GameWin`). Exceptions become `Result.Err`: `IllegalArgument` stands for `IllegalArgumentException` and `IllegalState` for `IllegalStateException`.

The modules follow the source:

- `Utils` (utils.dfy): `inRange`.
- `Tiles` (tile.dfy): the `Tile` record, its setters, and the `getXY` key with a parser for it.
- `Board` (board.dfy): cells, the x-major order of the engine's nested loops, the grid enumeration, and counting tiles by property.
- `Minesweeper` (minesweeper.dfy): the engine state, the constructor, `reset`, `getTile`, `getNearbyTiles`, `getNearbyBombs`, the flood-fill `uncoverAdjacentZeros`, `trigger`, `toggle` and `hint`.
- `FloodFill` (floodfill.dfy): what one flood-fill run does to a valid game, proved by induction over the same measure that makes the recursion terminate.
- `Actions` (actions.dfy): the contract of each player action, the exact notification sequences, and preservation of the engine invariant `Valid`.
- `Scenarios` (scenarios.dfy): small boards worked through to the exact output.

Randomness is an input. The constructor and `reset` take the bomb layout that the per-cell `Utils.chance(bombChance)` draws would produce. `hint` takes the index that `(int) (Math.random() * size)` would produce, required to be in range whenever a candidate exists.

The recursion of `uncoverAdjacentZeros` terminates on the lexicographic measure (`remainingTiles`, length of the neighbour list still to scan). Each recursive call follows a discovery that lowers `remainingTiles`. When the decrement reaches zero, the source's `--remainingTiles <= 0` test stops the recursion.

`Valid` is the engine invariant. It says:

- no tile is both discovered and flagged;
- no bomb is discovered;
- `remainingTiles` is the number of covered safe tiles.

The constructor and `reset` establish it, and every action keeps it.

Some behaviours of the code that the model keeps:

- **Terminal callbacks.** On a loss, `gameLose` comes first and the `makeBomb` sweep follows (Minesweeper.java:90-100). On a win, `gameWin` comes after every `makeUncovered` the flood-fill sent and before the `makeFlag` sweep (Minesweeper.java:105-115 and 133).
- **Bad coordinates after the game ends.** `trigger` and `toggle` check `gameOver` before validating coordinates. Once the game is over, a bad coordinate is a silent no-op, not an `IllegalArgumentException` (Minesweeper.java:83-87 and 147-151).
- **The tile named in `gameWin`.** A win reached inside the flood-fill names the originally triggered tile and its count, not the tile whose discovery emptied the count (Minesweeper.java:105-106).
- **Where the flood-fill starts.** Only a tile with count 0 flood-fills. On a 3-by-3 board whose only bomb is the centre, every tile touches the bomb, so `trigger(0, 0)` uncovers that corner alone with count 1 (`Scenarios.CornerBesideCentreBomb`). With the only bomb at (2, 2), the same trigger floods the whole board and wins (`Scenarios.FarCornerFloods`). The fill is depth-first: it descends into each zero tile's neighbours before it moves on to the next tile of its own list, and `Scenarios.FarCornerOrder` states the resulting notification order.

## Model

| member | source | states |
|---|---|---|
| Utils.InRange | src/main/java/me/cable/minesweeper/Utils.java:9-17 | true exactly when every number lies in [min, max]; true on an empty list; false whenever min > max and the list is non-empty |
| Tiles.NewTile | src/main/java/me/cable/minesweeper/Tile.java:13-17 | a new tile has the given position and bomb flag, and starts covered and unflagged |
| Tiles.SetDiscovered | src/main/java/me/cable/minesweeper/Tile.java:39-41 | sets the discovered bit to the argument and leaves position, bomb and flag unchanged |
| Tiles.SetFlagged | src/main/java/me/cable/minesweeper/Tile.java:47-49 | sets the flagged bit to the argument and leaves position, bomb and discovered unchanged |
| Tiles.SettersCompose | src/main/java/me/cable/minesweeper/Tile.java:35-49 | the two setters act on independent bits: the last write wins, they commute, and writing the current value changes nothing |
| Tiles.GetXY | src/main/java/me/cable/minesweeper/Tile.java:27-29 | the key is decimal x, a comma, decimal y; its first comma is the separator, so the text before it is exactly x's rendering and the text after it exactly y's |
| Tiles.GetXYRoundTrip | src/main/java/me/cable/minesweeper/Tile.java:27-29 | the "x,y" key of any tile, negative coordinates included, parses back to exactly (x, y), so the key identifies the position |
| Tiles.IntRoundTrip | src/main/java/me/cable/minesweeper/Tile.java:28 | the decimal rendering of every int reads back as that int |
| Tiles.IntToStringCanonical | src/main/java/me/cable/minesweeper/Tile.java:28 | the decimal rendering is canonical: never empty, "0" exactly for zero, a leading '-' exactly for negatives, digits otherwise, and no leading zero on any other number |
| Board.AllCells | src/main/java/me/cable/minesweeper/Minesweeper.java:28-32 | the cells visited by the engine's nested x/y loops: exactly the in-grid cells, n*n of them, strictly ascending in x-major order |
| Board.AscendingUnique | src/main/java/me/cable/minesweeper/Minesweeper.java:192-198 | two strictly x-major-ascending lists of cells with the same members are equal, so a loop-order enumeration is fixed by its member set |
| Board.Select | src/main/java/me/cable/minesweeper/Minesweeper.java:56-66 | keeps exactly the cells that pass the filter, keeps an x-major-ascending list ascending, and is strictly shorter when some cell fails |
| Board.GridCountUpdate | src/main/java/me/cable/minesweeper/Minesweeper.java:102 | replacing one tile changes a property count by exactly the change at that tile |
| Board.GridCountSafeSplit | src/main/java/me/cable/minesweeper/Minesweeper.java:36-48 | when no bomb is discovered, covered safe tiles plus discovered tiles make up all safe tiles |
| Minesweeper.CreateTiles | src/main/java/me/cable/minesweeper/Minesweeper.java:35-49 | an n-by-n grid whose tile at (x, y) carries position (x, y) and the layout's bomb bit there, covered and unflagged; the remainingTiles count it also sets is stated with Minesweeper.Create |
| Minesweeper.Create | src/main/java/me/cable/minesweeper/Minesweeper.java:17-22 | the constructor yields a valid, live board whose tiles match the layout and are covered and unflagged, with remainingTiles + bombs = n*n |
| Minesweeper.Reset | src/main/java/me/cable/minesweeper/Minesweeper.java:24-33 | reset gives a valid, live board of the same size whose tiles follow the new layout, covered and unflagged, and sends n*n notifications, all makeDefault, one for each in-grid cell and none for any other |
| Minesweeper.GetTile | src/main/java/me/cable/minesweeper/Minesweeper.java:176-182 | returns the tile at (x, y) exactly when both coordinates lie in 0..gridSize-1, otherwise IllegalArgument |
| Minesweeper.NearbyTiles | src/main/java/me/cable/minesweeper/Minesweeper.java:187-201 | exactly the in-grid cells at Chebyshev distance 1, in loop order, at most 8 |
| Minesweeper.BombsAmong | src/main/java/me/cable/minesweeper/Minesweeper.java:203-213 | the count is at most the number of cells and is zero exactly when none of them is a bomb |
| Minesweeper.NearbyBombs | src/main/java/me/cable/minesweeper/Minesweeper.java:203-213 | a tile's bomb count lies in 0..8 |
| Minesweeper.BombsAmongCounts | src/main/java/me/cable/minesweeper/Minesweeper.java:203-213 | over a strictly ascending list of in-grid cells, the count is the number of distinct bomb cells in the list |
| Minesweeper.NearbyBombsCount | src/main/java/me/cable/minesweeper/Minesweeper.java:187-213 | a tile's count is exactly the size of the set of in-grid cells adjacent to it that hold a bomb |
| Minesweeper.NearbyBombsZero | src/main/java/me/cable/minesweeper/Minesweeper.java:203-213 | a tile counts zero exactly when no adjacent in-grid tile is a bomb |
| Minesweeper.DiscoverOne | src/main/java/me/cable/minesweeper/Minesweeper.java:102-105 | discovering one tile changes only that tile's discovered bit and lowers remainingTiles by one |
| Minesweeper.UncoverFrom | src/main/java/me/cable/minesweeper/Minesweeper.java:125-141 | the flood-fill keeps the grid shape and never raises remainingTiles; it terminates on the measure remainingTiles |
| Minesweeper.UncoverFromReached | src/main/java/me/cable/minesweeper/Minesweeper.java:125-141 | every tile the fill over a list announces is in the list or adjacent to a tile announced earlier with count 0: the loop recurses only from zero tiles |
| Minesweeper.UncoverAdjacentZeros | src/main/java/me/cable/minesweeper/Minesweeper.java:125-141 | the fill from (x, y) keeps the grid shape, never raises remainingTiles, and announces only neighbours of (x, y) or of zero tiles it announced earlier |
| Minesweeper.Trigger | src/main/java/me/cable/minesweeper/Minesweeper.java:82-120 | after game over: no change and no callbacks; otherwise fails with IllegalArgument exactly for off-grid coordinates; discovered or flagged tiles are left alone |
| Minesweeper.Toggle | src/main/java/me/cable/minesweeper/Minesweeper.java:146-162 | after game over: no change; otherwise fails with IllegalArgument exactly for off-grid coordinates; discovered tiles are left alone |
| Minesweeper.Available | src/main/java/me/cable/minesweeper/Minesweeper.java:56-66 | exactly the covered, safe tiles with no bomb around, flagged or not, in loop order |
| Minesweeper.Hint | src/main/java/me/cable/minesweeper/Minesweeper.java:51-54 | after game over, hint changes nothing and sends nothing |
| FloodFill.DiscoverValid | src/main/java/me/cable/minesweeper/Minesweeper.java:102-105 | discovering a covered, unflagged safe tile keeps Valid, and such a tile implies remainingTiles >= 1 |
| FloodFill.NearbyBombsSameBoard | src/main/java/me/cable/minesweeper/Minesweeper.java:203-213 | bomb counts depend only on the bomb layout, not on discovered or flagged bits |
| FloodFill.FloodCompose | src/main/java/me/cable/minesweeper/Minesweeper.java:126-138 | two flood-fill runs in sequence satisfy the run summary FloodOk as one run |
| FloodFill.UncoverFromOk | src/main/java/me/cable/minesweeper/Minesweeper.java:125-141 | a flood-fill over safe cells keeps Valid, discovers each tile at most once, notifies each one it discovers with its count, lowers remainingTiles by one per notification, and reports a win exactly when remainingTiles reaches 0; every tile it announces is in the list or next to a zero tile announced earlier |
| FloodFill.UncoverFromComplete | src/main/java/me/cable/minesweeper/Minesweeper.java:125-141 | a flood-fill over in-grid safe cells, started with remainingTiles > 0, leaves every listed cell and every in-grid neighbour of each tile it announced with count 0 discovered or flagged |
| FloodFill.WonComplete | src/main/java/me/cable/minesweeper/Minesweeper.java:135-136 | a run that stops on a win has discovered every safe tile, so nothing the run was asked to reach is left covered |
| FloodFill.NoHiddenLeft | src/main/java/me/cable/minesweeper/Minesweeper.java:105 | on a valid board with remainingTiles 0, every in-grid safe tile is discovered |
| Actions.ResetSpec | src/main/java/me/cable/minesweeper/Minesweeper.java:24-49 | reset gives a valid fresh board from the layout with the latch cleared, then sends makeDefault once per cell, n*n in all, in x-major order |
| Actions.TriggerBomb | src/main/java/me/cable/minesweeper/Minesweeper.java:90-100 | a bomb sends gameLose first, then makeBomb exactly once for every other bomb in loop order (never for itself); only the latch changes |
| Actions.WinSpec | src/main/java/me/cable/minesweeper/Minesweeper.java:106-115 | the win sends the earlier notifications, then gameWin(x, y, n), then makeFlag once per bomb in loop order, without setting any flag bit |
| Actions.TriggerSafe | src/main/java/me/cable/minesweeper/Minesweeper.java:101-141 | a covered, unflagged safe tile is discovered together with exactly the flood-filled tiles (each covered, unflagged, safe, notified once with its count); remainingTiles drops by their number; the game ends, with the win sequence, exactly when remainingTiles reaches 0; otherwise the tile's own makeUncovered comes last. A tile with a non-zero count fills nothing; a zero tile's fill announces only its neighbours and neighbours of zero tiles announced earlier. The fill is complete: when the tile counts 0, each in-grid neighbour, and each in-grid neighbour of every tile announced with count 0, ends discovered or flagged |
| Actions.SettleFloods | src/main/java/me/cable/minesweeper/Minesweeper.java:105-118 | a zero tile that does not win at once flood-fills first, then either wins with count 0 after the fill's notifications or sends its own makeUncovered after them |
| Actions.TriggerValid | src/main/java/me/cable/minesweeper/Minesweeper.java:82-120 | every trigger keeps Valid and never raises remainingTiles |
| Actions.TriggerKeepsBoard | src/main/java/me/cable/minesweeper/Minesweeper.java:82-120 | trigger never moves a tile or changes its bomb flag |
| Actions.ToggleFlips | src/main/java/me/cable/minesweeper/Minesweeper.java:151-161 | toggling a covered tile flips its flag and nothing else, sending makeFlag when the tile becomes flagged and makeDefault when it is unflagged |
| Actions.ToggleTwice | src/main/java/me/cable/minesweeper/Minesweeper.java:146-162 | toggling the same coordinate twice succeeds and restores the game exactly |
| Actions.ToggleValid | src/main/java/me/cable/minesweeper/Minesweeper.java:146-162 | toggle keeps Valid and leaves remainingTiles unchanged |
| Actions.HintFails | src/main/java/me/cable/minesweeper/Minesweeper.java:56-72 | on a live board, hint fails with IllegalState exactly when every covered safe tile has a bomb nearby |
| Actions.HintSafe | src/main/java/me/cable/minesweeper/Minesweeper.java:74-76 | the chosen tile is covered, safe and zero; hint then succeeds, discovers it, keeps Valid, lowers remainingTiles, and never sends gameLose or makeBomb |
| Actions.HintValid | src/main/java/me/cable/minesweeper/Minesweeper.java:51-77 | every successful hint keeps Valid and never raises remainingTiles |
| Actions.HintKeepsBoard | src/main/java/me/cable/minesweeper/Minesweeper.java:74-76 | hint never moves a tile or changes its bomb flag |
| Scenarios.SingleSafeTileWins | src/main/java/me/cable/minesweeper/Minesweeper.java:102-115 | on a 1-by-1 board without bombs, the first trigger discovers the tile and sends only gameWin(0, 0, 0) |
| Scenarios.CornerBesideCentreBomb | src/main/java/me/cable/minesweeper/Minesweeper.java:102-118 | on a 3-by-3 board with only the centre bomb, trigger(0, 0) shows count 1 and uncovers nothing else |
| Scenarios.CentreTriggerLoses | src/main/java/me/cable/minesweeper/Minesweeper.java:90-100 | on that board, triggering the centre sends only gameLose(1, 1) |
| Scenarios.CentreBombNoHint | src/main/java/me/cable/minesweeper/Minesweeper.java:56-72 | on that board, no tile qualifies for a hint, so hint fails with IllegalState |
| Scenarios.CentreBombCreated | src/main/java/me/cable/minesweeper/Minesweeper.java:17-49 | the centre-bomb board of the scenarios above is what the constructor builds from that layout |
| Scenarios.FarCornerCreated | src/main/java/me/cable/minesweeper/Minesweeper.java:17-49 | the board whose only bomb is (2, 2) is what the constructor builds from that layout |
| Scenarios.FarCornerFloods | src/main/java/me/cable/minesweeper/Minesweeper.java:101-141 | on that board, trigger(0, 0) floods: it announces each of the other seven safe tiles once with its count, then sends gameWin(0, 0, 0) and makeFlag(2, 2); the game is won with only the bomb covered |
| Scenarios.FarCornerOrder | src/main/java/me/cable/minesweeper/Minesweeper.java:101-141 | on that board, trigger(0, 0) sends exactly makeUncovered (0,1,0), (0,2,0), (1,1,1), (1,2,1), (1,0,0), (2,0,0), (2,1,1) in that depth-first order, then gameWin(0, 0, 0) and makeFlag(2, 2), and ends the game |

## Left out

- The random draws: `Utils.chance` (Utils.java:5-7) and `Math.random()` are inputs. The model takes the bomb layout and the hint index as parameters, so it does not model the distribution (`bombChance`).
- The drawing callbacks: `makeDefault`, `makeUncovered`, `makeFlag`, `makeBomb`, `gameLose` and `gameWin` are abstract methods the host implements. The model records their calls as `Event`s and leaves their effects out.
- Java `int` overflow: `gridSize * gridSize` (Minesweeper.java:36) overflows for grids above 46340. Integers are unbounded here.
- A negative `gridSize`: the constructor throws `NegativeArraySizeException` at Minesweeper.java:20. `Create` takes a `nat`, so this error is not modelled.
- Getters: the Tile getters (`getX`, `getY`, `isBomb`, `isDiscovered`, `isFlagged`) are the datatype's fields.
- The package name: Minesweeper.java imports `me.cable.minesweeper.util.Utils`, while Utils.java declares `me.cable.minesweeper`. The model treats them as the same class.
- Minesweeper.UncoverFrom: its own contract only states shape and monotonicity. Three lemmas bound the tiles it announces. `FloodFill.UncoverFromOk` (soundness) and `FloodFill.UncoverFromComplete` (completeness) need a valid state and safe cells to scan. `Minesweeper.UncoverFromReached` (reachability) holds for any well-formed state.
- Minesweeper.Hint: its own contract only covers the game-over case. The success, failure and safety properties are `Actions.HintFails`, `Actions.HintSafe`, `Actions.HintValid` and `Actions.HintKeepsBoard`.
- A region-shaped description of the flood-fill: the model does not define "the connected zero region plus its border". Instead, three lemmas bound the announced tiles from both sides, up to flags and tiles discovered before the fill. Reachability (`Minesweeper.UncoverFromReached`) says every announced tile is in the scanned list or next to a zero tile announced earlier. Completeness (`FloodFill.UncoverFromComplete`) says every listed cell, and every in-grid neighbour of a zero tile announced, ends up discovered or flagged. Soundness (`FloodFill.UncoverFromOk`) says each is announced once, with its true count. Both bounds are stated up to flags, because the fill skips flagged tiles and does not continue through them (Minesweeper.java:127-129).
