# Random-Dungeon generator, modelled in Dafny

`Dungeon` (dungeon.js) builds a random dungeon in eight stages over three pieces of
state it changes in place:

- a tile grid (`empty`, `room`, `hall`, `door`, `door_<i>`, `key_<i>`, `start`, `end`);
- an obstacle layer of 0/1 flags that the pathfinder must avoid;
- a list of room records.

The stages run in this order:

1. `createGrid` lays out an empty grid with a border of obstacles.
2. `createRooms` draws rectangles at random. A rectangle is painted only when it and a
   padding ring around it are still empty. `createRoom` adds a pattern of obstacles around
   each placed room and a room record.
3. `placeRandomWalls` scatters obstacles.
4. `createHallsAndDoors` asks a pathfinder for a path between consecutive rooms. Along
   each path, empty cells become halls and room cells at a hall's end become doors, each
   recorded in the rooms whose box holds it.
5. `fixWalls` rebuilds the obstacle layer from the grid.
6. `setStartAndEnd` sorts the rooms by door count and marks the start and end rooms.
7. `createPaths` hands out keys and locks the doors each key opens. Its check
   (`checkPaths`) then makes sure every consecutive pair of rooms, in play order, is still
   connected.
8. `cleanUp` optionally doubles the grid and collapses 2×2 windows.

`generate` runs the stages, tracks progress, and either succeeds, schedules a retry or
gives up.

The model keeps that shape:

- The generator is a class `Generator.Dungeon` with the source's fields.
- Each stage is a method that changes those fields with the same loops as the source.
- Each method is proved against a specification function of its stage. The stage functions
  live in one module each: `Placement`, `Layers`, `Carving`, `Gating` and `Doubling`.
- Lemmas about those functions state what the stage promises.

Randomness is an explicit input. Each call of `$rand` consumes one `Math.random()` value,
a real in [0, 1). Each loop iteration that tests a deadline receives the clock reading it
sees. These inputs are collected per attempt in `Generator.AttemptInput`.

The pathfinder (`AStar`) is a function parameter from the obstacle layer and two cells to
a sequence of cells.

The source's quirks are kept as written:

- The border test compares the column with `sizeX`, so the right-hand column gets no
  obstacles.
- The placement deadline shrinks as rooms are placed.
- Key rooms are drawn with `$rand(2, n - 1)`, which never picks the last room once there
  are four rooms. With exactly two rooms the draw gives 1, so key 0 goes to the end room and
  overwrites its `end` tile. Every later key then finds no plain room tile, and the stage
  fails at its deadline.
- The reachability check also tests the pair from the order-0 room to the unordered room
  after it.

## Model

| member | source | states |
|---|---|---|
| Random.Rand | dungeon.js:598-601 | `$rand(min, max)` lies in [min, max) when min < max, is min when they are equal, and lies in [max, min] when max < min |
| Random.RandBetween | dungeon.js:598-601 | the drawn value always lies between the smaller and the larger bound |
| Rooms.WithDoorEffect | dungeon.js:287-296 | adding a door at c appends c to the doors of exactly the rooms whose inclusive box x..width × y..height holds c; every other field and every other room is unchanged |
| Rooms.SortBy | dungeon.js:384-387 | the rooms come out sorted by the key (door count, or descending order) and are a permutation of the input |
| Placement.Candidate | dungeon.js:189-194 | the drawn width and height lie within the configured minimum and maximum sizes |
| Placement.FitsInside | dungeon.js:199-218 | a candidate that passes the fit test has a two-cell margin on every side, so the test reads no cell outside the grid |
| Placement.FitsClearsRing | dungeon.js:199-218 | a candidate that passes the fit test leaves every cell of the box and of the one-cell ring around it empty |
| Placement.NewRoom | dungeon.js:268-284 | the new record has x, y, width = x + w, height = y + h, no doors, no key, order −99, and a centre strictly inside the box when the box is at least 3 cells wide or high |
| Placement.PatternNearRoom | dungeon.js:237-266 | every obstacle of the corner and ring pattern lies within the ring y−1..y+h × x−1..x+w |
| Placement.TryPlaceAppends | dungeon.js:196-228 | one iteration appends exactly one fresh, in-grid record when the candidate fits and nothing otherwise, keeping the earlier records |
| Placement.PlaceRoomsCount | dungeon.js:177-232 | the stage leaves between 0 and roomCount rooms unplaced, succeeds exactly when none is left, and appends one fresh, in-grid record per placed room after the old ones |
| Placement.PlaceRoomsMonotone | dungeon.js:199-228 | placement only turns empty cells into room cells and only adds obstacles |
| Layers.DrawnCell | dungeon.js:303-304 | a scattered obstacle lands at column ≥ 1 and row ≥ 1, inside the grid, and off the last row and column once the grid is at least 3 wide or high |
| Layers.ScatterWallsCells | dungeon.js:298-314 | after the stage a cell is an obstacle if and only if it was one before or one of the first roomCount draws picked it |
| Carving.CarveFailsIffNoPath | dungeon.js:318-328 | the stage fails if and only if the pathfinder returns an empty path for some link from the current room on |
| Carving.CarveKeepsRooms | dungeon.js:287-366 | carving changes only the door lists of the rooms, and every recorded door lies in the grid |
| Carving.CarveTiles | dungeon.js:329-365 | an empty cell may only become a hall, a room cell may only become a door, and no other tile changes |
| Carving.CarveTouchesPathsOnly | dungeon.js:329-365 | every cell the stage changes lies on some link's path after the path's first cell |
| Carving.FreshDoorsRecorded | dungeon.js:281 | on a grid with no door tile, the door records agree with the tiles exactly when every room's door list is empty, as it is when `createRoom` makes the record |
| Carving.CarveRecords | dungeon.js:335-362 | every recorded door is a door tile inside its room's box, and every door tile inside a room's box is recorded in that room (given that this held before) |
| Gating.KeyIndex | dungeon.js:421-437 | a key room index names a room other than the start room (1 ≤ k < n); with three or more rooms it is not the end room either (2 ≤ k), with exactly two rooms it is the end room, and with four or more rooms it is never the last room |
| Gating.FirstKeyLocks | dungeon.js:411-429 | key 0 locks every door of the end room (gate-0 door tile and obstacle), puts key 0 in the drawn room with order 1, and changes no other cell |
| Gating.AcceptLocks | dungeon.js:439-453 | an accepted draw gives the room key i and order i + 1, puts the key tile at its centre, turns every door of the previous key room into a gate-i door and an obstacle, and changes no other cell |
| Gating.GiveKeyExtendsChain | dungeon.js:439-444 | handing gate g to a room whose centre is a plain room tile extends a valid key chain of g gates to g + 1 |
| Gating.LockedKeepsChain | dungeon.js:446-451 | locking doors keeps the key chain valid |
| Gating.FirstKeyChain | dungeon.js:404-429 | with three or more rooms, after ranking and key 0, gate 0 has exactly one holder with order 1, and start and end keep orders 99 and 0 and no key; with two rooms key 0 goes to the end room, which takes order 1 and a `key_0` tile, while the start room keeps order 99 and no key |
| Gating.PlaceKeysChain | dungeon.js:431-455 | when key placement succeeds, every gate below keys is held by exactly one room with order gate + 1, whose centre is no longer a plain room tile, and start and end hold none |
| Gating.PlaceAllKeysChain | dungeon.js:398-456 | with three or more rooms, a successful key placement establishes that key chain for all keys; with two rooms it succeeds exactly when there is a single key, and the end room holds key 0 with order 1 |
| Gating.PlaceKeysStuck | dungeon.js:431-455 | with two rooms, once the end room's centre is no longer a plain room tile, every later key draw is rejected, so the loop ends in failure with the layout unchanged |
| Gating.CheckFromIff | dungeon.js:469-501 | the check succeeds if and only if every ordered room that has a successor reaches it along the obstacles as opened so far; on success the obstacle layer is the input with the doors of room j + 2 opened for every ordered room j |
| Gating.CheckFromOpensOnly | dungeon.js:491-498 | the check only removes obstacles, never adds one |
| Gating.CheckFromSettled | dungeon.js:476-477 | once the check has stopped or finished, the rest of the rooms change nothing and the result is the negated stop flag |
| Doubling.FindChecker | dungeon.js:510-521 | the scan reports a diagonal hall/empty checkerboard window if and only if the grid has one |
| Doubling.DoubleRows | dungeon.js:523-529 | row duplication yields 2·rows rows of the same width, row r being input row r/2 |
| Doubling.DoubleColumns | dungeon.js:531-535 | column duplication yields 2·cols columns in every row, cell c being input cell c/2 |
| Doubling.Duplicate | dungeon.js:523-535 | both duplications together yield the grid whose cell (r, c) is input cell (r/2, c/2) |
| Doubling.DoubleOfUnique | dungeon.js:523-535 | a grid with that cell property is the doubled grid |
| Doubling.ShrunkUndoesDouble | dungeon.js:523-535 | sampling every other row and column of the doubled grid gives back the input |
| Doubling.CollapseKey | dungeon.js:543-552 | the key test of a window is the window function's key step |
| Doubling.CopyPair | dungeon.js:561-562 | the method computes the side-copy function; what that function means (the tile lands on both cells exactly when both are halls) is proved by Doubling.SideCopiesCells and Doubling.CopyStep |
| Doubling.CollapseDoor | dungeon.js:555-575 | the door test of a window is the window function's door step |
| Doubling.CollapseWindow | dungeon.js:542-581 | one window's key, door and start/end tests are the window function |
| Doubling.CollapseWindows | dungeon.js:538-583 | the nested window loop is the pass function over all windows, row by row, left to right |
| Doubling.WindowKey | dungeon.js:543-552 | a window of four equal key tiles of a gate below keys keeps only its top-left key; the other three become room and nothing else changes |
| Doubling.WindowStartEnd | dungeon.js:578-581 | a start or end tile at a window's top-left turns the other three cells of the window into room and changes nothing else |
| Doubling.WindowDoors | dungeon.js:555-575 | an all-door window becomes four room cells after its top-left door tile is copied onto every fully-hall pair beside it; nothing else changes |
| Doubling.SideCopiesCells | dungeon.js:560-571 | the four side copies write the tile exactly onto the cells of the fully-hall pairs beside the window |
| Doubling.WindowCollapses | dungeon.js:538-583 | one window step leaves each cell as it was, makes it a room, or copies a door tile onto a hall |
| Doubling.PassCollapses | dungeon.js:538-583 | the whole window pass invents no tile: each cell keeps its tile, becomes room, or, when it was a hall, becomes a door tile |
| Generator.Dungeon.constructor | dungeon.js:39-43 | a new generator has percent and time 0 and no flag set |
| Generator.Dungeon.Cancel | dungeon.js:52-55 | cancel raises the cancelled flag and changes nothing else |
| Generator.Dungeon.CreateGrid | dungeon.js:157-175 | every cell is empty, a cell is an obstacle exactly when it is in the top row, bottom row or left column, the right-hand column is not walled, and there are no rooms |
| Generator.Dungeon.FitTest | dungeon.js:196-218 | the nested scan finds the candidate free exactly when it fits |
| Generator.Dungeon.PaintRoom | dungeon.js:220-224 | exactly the cells y..y+h−1 × x..x+w−1 become room and nothing else changes |
| Generator.Dungeon.CreateRoom | dungeon.js:234-285 | only the obstacle layer and the room list change: the corner and even-offset ring obstacles are added, and the new record is appended |
| Generator.Dungeon.Corners | dungeon.js:237-252 | exactly the sixteen corner cells become obstacles |
| Generator.Dungeon.SideRing | dungeon.js:255-260 | exactly the even rows of the left and right ring columns become obstacles |
| Generator.Dungeon.EndRing | dungeon.js:261-266 | exactly the even columns of the top and bottom ring rows become obstacles |
| Generator.Dungeon.CreateRooms | dungeon.js:177-232 | the layers and rooms become those of the placement function, and the stage succeeds exactly when every room was placed |
| Generator.Dungeon.TryRoom | dungeon.js:185-228 | one iteration of the placement loop is one step of the placement function |
| Generator.Dungeon.AddDoorToRoomAt | dungeon.js:287-296 | the rooms become the door-added rooms, and the grid and obstacles are unchanged |
| Generator.Dungeon.PlaceRandomWalls | dungeon.js:298-314 | the obstacle layer becomes the scattered layer, and the grid and rooms are unchanged |
| Generator.Dungeon.CarveCell | dungeon.js:331-364 | one path cell is one carving step |
| Generator.Dungeon.CreateHallsAndDoors | dungeon.js:316-369 | the state and the result are those of the carving function from the first room, and the door records still agree with the door tiles afterwards |
| Generator.Dungeon.FixWalls | dungeon.js:371-378 | a cell is an obstacle exactly when its tile is empty; grid and rooms are unchanged, so a second run changes nothing |
| Generator.Dungeon.SetStartAndEnd | dungeon.js:380-393 | the rooms are a permutation sorted by door count; end is at room 1's centre and start at room 0's; no other cell and no obstacle changes |
| Generator.Dungeon.LockDoors | dungeon.js:446-451 | the listed doors become gate doors and obstacles |
| Generator.Dungeon.GiveKeyTo | dungeon.js:423-426 | the room takes the key, its order and the key tile at its centre |
| Generator.Dungeon.PlaceFirstKey | dungeon.js:405-429 | ranking plus key 0 is the first-key function |
| Generator.Dungeon.PlaceMoreKeys | dungeon.js:431-455 | the drawing loop for keys 1 onwards is the key placement function under the deadline |
| Generator.Dungeon.TryKey | dungeon.js:437-454 | one draw accepts exactly when the drawn room's centre is a plain room tile, and then applies the accepted step |
| Generator.Dungeon.UnlockDoors | dungeon.js:491-498 | the listed doors stop being obstacles; grid and rooms are unchanged |
| Generator.Dungeon.CheckPaths | dungeon.js:462-502 | the rooms are a permutation sorted by descending order; the result is the check function's; it succeeds iff every consecutive ordered pair is connected |
| Generator.Dungeon.CreatePaths | dungeon.js:395-460 | no keys: success and no change; otherwise a deadline failure gives failure; with two rooms placement succeeds exactly for a single key; a full placement gives the key chain (three or more rooms) followed by the check's verdict |
| Generator.Dungeon.CleanUp | dungeon.js:504-586 | not doubled: success and no change; doubled: fails iff a checkerboard window exists, and otherwise yields the pass over the doubled grid, which invents no tile |
| Generator.Dungeon.RunStage | dungeon.js:72-83 | a successful stage establishes what the next stage needs |
| Generator.Dungeon.RunStages | dungeon.js:78-83 | the stage loop runs until a stage fails or cancel is set; percent is (completed − 1)/8; all eight stages succeed only without cancel, leaving roomCount rooms |
| Generator.Dungeon.Conclude | dungeon.js:86-116 | success restores tries and sets percent 1, the elapsed time and done; failure with tries left schedules a retry and changes nothing; otherwise tries are restored and percent 0, time 0, cancelled |
| Generator.Dungeon.Generate | dungeon.js:58-117 | a fresh call resets the flags and saves tries; every call uses up one try, then succeeds, retries, or gives up, with the flags as above |
| Generator.Dungeon.Reattempt | dungeon.js:86-98 | one scheduled attempt keeps the saved tries; a retry leaves tries one lower and positive; a final outcome restores them |
| Generator.Dungeon.Run | dungeon.js:58-117 | a fresh request makes between 1 and max(tries, 1) attempts and ends in success or failure with the flags the source sets |

## Left out

- `render`, `getDungeon`, `merge`, `setOptions` and the default options (dungeon.js:4-17, 46-49, 119-149) are HTML and option plumbing. The model takes the merged options as given.
- `$time()` and `Math.random()` are inputs: one clock reading per deadline test, and one real in [0, 1) per `$rand` call, collected in `Generator.AttemptInput`.
- `setTimeout` asynchrony is not modelled. A scheduled retry is the `Retry` outcome; `Generator.Dungeon.Run` performs the retries one after another, and the `restartTimer` delay has no effect.
- The A* search (`AStar`) is not part of this model. It is a `Pathfinder` parameter, assumed to return paths whose cells lie in the grid; the Manhattan heuristic plays no role.
- The room `id` (a timestamp) is dropped from the record; nothing reads it.
- The `tile.roomTarget` guard in `placeRandomWalls` compares with an undefined property, so it never skips. The model writes every drawn cell.
- Generator.ValidOptions: excludes options that make the source throw or index arrays at negative positions. Each excluded case:
  - too few rows for the fit test: `sizeY` below `roomMaxY + 4` when `roomMinY < roomMaxY`, or below `roomMinY + 5` otherwise. Then some drawn height lets the test read a row outside the grid, a TypeError;
  - zero or one room: `setStartAndEnd` reads a missing record, a TypeError. A negative `roomCount` is allowed: `createRooms` then fails every attempt, as in the source;
  - negative room sizes or a negative width: the source writes to negative array positions. These are excluded as simplifications; with a negative width no room fits anyway;
  - a negative `keys`: not representable, since the field is a natural number.
- Gating.KeyIndex: with exactly two rooms, a key draw of exactly 0 gives index 2, and the source throws a TypeError reading the missing room. The model excludes that one draw value.
- Doubling.Checker: reads outside the grid in `cleanUp` count as "not equal to any tile". A read past the last column gives `undefined` in the source, and the model matches that. A read of a row outside the grid throws in the source, and the model reads it as not equal instead.
- Rooms.SortBy: the order of rooms with equal keys is not specified. The contracts hold for any tie order, so they do not depend on the engine's sort or on `.reverse()` reversing ties.
- `cleanUp` doubles only the grid, as the source does: the obstacle layer and the room coordinates keep their single-size values.
- A JavaScript number is modelled as an unbounded integer. Every value the generator computes is a small integer, so no rounding occurs.
