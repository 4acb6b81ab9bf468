# A verified model of a browser maze walk

The repository is a small Three.js page: a 21 × 21 grid maze that the visitor walks
through in first person. Each of the four exits in the middle of the outer walls opens a
link when the player steps on it. This project models the parts of it that carry logic
rather than rendering:

- **the maze generator** `generateLogicalMaze` (script.js). Before the exits are opened, its carving forms a tree: no cycles, and one path between any two carved cells. The tree spans every cell of the start's lattice only when each call walks its own shuffled order (see Findings). It has several parts:
  - an all-wall `height × width` grid of 0/1 cells;
  - a recursive backtracker `carvePassages` that starts at the centre cell;
  - a Fisher–Yates `shuffle` of one shared `directions` array;
  - jumps two cells at a time into uncarved cells strictly inside the outer ring;
  - an exit pass that forces every configured exit cell to path, together with the
    neighbour picked by the first matching edge test.
- **the per-frame controls of script.js:**
  - yaw and pitch in `movePlayer`: turn keys, easing towards level while walking, look keys,
    and a clamp to ±π/2;
  - the exit check of `handlePlayerCollisions`: the first exit in list order whose centre is
    closer than 0.5.
- **the earlier generator** `generateMaze` of script_jan01.js and script_oldv1.js. The two
  copies are identical. It builds an all-wall grid and clears each interior cell whose own
  random draw is below 0.3.
- **the controls of script_oldv1.js:** the arrow chosen by `calculateExitDirection`, and the
  rotation step of `move`. In that step the look keys act only while the pitch is on the
  allowed side of ±π/4.

`Math.random` is replaced by an injected stream of draws `rnd: nat -> real`, each draw in
[0, 1). Every property below holds for every such stream, except the concrete run of `SharedDirections`, which assumes six fixed first draws. Angles and positions are Dafny
`real`s.

## Layout

| file | module | what it holds |
|---|---|---|
| wrappers.dfy | `Wrappers` | `Option` |
| random.dfy | `Random` | the draw stream; `shuffle` as the function `Shuffled` and as the in-place method `Shuffle` |
| grid_paths.dfy | `GridPaths` | cells `(x, z)` and 4-connected paths through a set of open cells |
| logical_maze.dfy | `LogicalMaze` | the pure carving model; cells as a set of open cells |
| maze_builder.dfy | `MazeBuilder` | `generateLogicalMaze` as it runs: a `Generator` class over an `array2<int>` and an `array<Dir>`, proved equal to the pure model |
| maze_properties.dfy | `MazeProperties` | stays inside the ring, off corner posts, connected to the start, a tree; completeness for a per-frame order |
| exit_openings.dfy | `ExitOpenings` | what the exit pass opens; the four configured exits are reachable |
| shared_directions.dfy | `SharedDirections` | a concrete run on which the code as written leaves a cell uncarved (see Findings) |
| player_controls.dfy | `PlayerControls` | yaw/pitch of `movePlayer`, the exit check |
| random_fill.dfy | `RandomFill` | the earlier `generateMaze` |
| old_controls.dfy | `OldControls` | `calculateExitDirection`, the look gates of the old `move` |

### The carving model

`Carve(mode, width, height, shuffle, s, x, z)` is one call of `carvePassages(x, z)`. It
works on a `Carving`, which holds three things:
- the set of open cells;
- the current contents of the shared `directions` array;
- the index of the next draw.

`Visit` runs iterations `k..3` of the call's direction loop, and `Step` runs one of them.
`InBounds` is `isInBounds`. A `Mode` says which order a frame's loop reads:
- `Live` follows the code as written. `for (const {dx, dz} of directions)` reads the one
  shared array at index `k`, and every nested call has shuffled that array again by then.
- `Snapshot` walks the order the frame's own shuffle produced.

The `Generator` class is the code as written (`Live`). `Generator.CarvePassages` is proved to
leave exactly the cells of `Carve(Live, …)` at 0 and the shared array in the order the model
predicts. The loop body is split into two methods: `TryDirection` runs one iteration, and
`CarveThrough` carves into the target.

## Model

| member | source | states |
|---|---|---|
| `Random.SwapIndex` | script.js:312 | `floor(r * (i + 1))` for a draw `r` in [0, 1) is an index in `0..i` |
| `Random.Swap` | script.js:313 | the destructuring swap exchanges positions `i` and `j` and leaves every other position unchanged |
| `Random.SwapPermutes` | script.js:313 | a swap keeps the multiset of elements |
| `Random.Shuffled` | script.js:310-315 | the descending Fisher–Yates loop keeps the length of the array |
| `Random.ShuffledPermutes` | script.js:310-315 | for every stream of draws, the shuffle returns a permutation of its input |
| `Random.Shuffle` | script.js:310-315 | the in-place method leaves in the array exactly what `Shuffled` predicts and takes one draw per index from the last down to 1 |
| `LogicalMaze.SwapKeepsOrder` | script.js:313 | swapping two entries of an order of the four unit moves gives an order of the four unit moves |
| `LogicalMaze.DistinctEntries` | script.js:299-304 | two positions of an order of the moves hold two different unit moves |
| `LogicalMaze.ShuffledKeepsOrder` | script.js:310-315 | shuffling `directions` keeps it an order of up, right, down, left, for every stream |
| `LogicalMaze.ShuffleOrders` | script.js:310-315 | the shuffle maps every order of the four moves to an order of the four moves |
| `LogicalMaze.FisherYates` | script.js:319 | the shuffle `carvePassages` applies is one that permutes the four moves |
| `LogicalMaze.Chosen` | script.js:321 | the direction an iteration reads is a unit move |
| `LogicalMaze.StepFacts` | script.js:322-326 | a two-cell step between interior cells passes an interior cell in between; that cell is adjacent to both ends and sits on a row or column of the start, so it is no corner post; the target has the start's parity |
| `LogicalMaze.InBounds` | script.js:306-308 | a cell `isInBounds` accepts is on the grid, so the `maze[nz][nx]` read at script.js:325 stays inside the array; a cell of the grid is in bounds exactly when it lies on none of the four edges the exit pass tests (script.js:341-344); the in-bounds cells are the set `Interior` |
| `LogicalMaze.Carve` | script.js:317-330 | a call opens its own cell, keeps every open cell open, and leaves `directions` an order of the four moves |
| `LogicalMaze.Visit` | script.js:321-329 | the direction loop keeps every open cell open and `directions` an order of the moves |
| `LogicalMaze.Step` | script.js:321-328 | an iteration keeps every open cell open; after it, the target it read is open whenever it lies inside the ring |
| `LogicalMaze.CarveMaze` | script.js:332-335 | carving from `(floor(w/2), floor(h/2))` on an all-wall grid opens the start cell |
| `LogicalMaze.Opening` | script.js:339-344 | an exit opens its own cell and at most one more cell: the neighbour chosen by the first matching edge test |
| `LogicalMaze.InwardNeighbour` | script.js:341-344 | an exit has a neighbour to open exactly when it lies on one of the four edges; that neighbour is adjacent to it |
| `LogicalMaze.WithExits` | script.js:338-345 | the exit pass keeps every carved cell open and opens the cells of every exit in the list |
| `LogicalMaze.GenerateOpen` | script.js:332-348 | the path cells of the returned grid include every carved cell, the start cell and every exit cell |
| `MazeBuilder.Generator.constructor` | script.js:298-304 | the grid is `height` rows of `width` ones, `directions` is up, right, down, left, and no draw is taken yet |
| `MazeBuilder.Generator.Clear` | script.js:318 | `maze[z][x] = 0` opens exactly that cell and keeps the grid and the open set in step |
| `MazeBuilder.Generator.CarvePassages` | script.js:317-330 | `carvePassages(x, z)` on the real arrays leaves the grid, the shared array and the draw count exactly as the live model's `Carve` predicts |
| `MazeBuilder.Generator.TryDirection` | script.js:321-329 | one iteration of the loop on the real arrays matches the model's `Step` |
| `MazeBuilder.Generator.CarveThrough` | script.js:326-327 | clearing the cell in between and recursing matches the model's `Carve` from the target |
| `MazeBuilder.Generator.OpenExits` | script.js:338-345 | the `forEach` over the exits opens exactly the cells `WithExits` adds, in list order, and takes no draws |
| `MazeBuilder.ShrinkInterior` | script.js:325-327 | recursing into an uncarved interior cell strictly shrinks the set of interior cells left to carve, so carving terminates |
| `MazeBuilder.GenerateLogicalMaze` | script.js:296-348 | the returned `height × width` grid is 0 exactly on the cells of the live carving plus the exit cells, and 1 elsewhere |
| `MazeProperties.CarveInside` | script.js:317-330 | every cell a call opens is strictly inside the outer ring and is no corner post of its own lattice |
| `MazeProperties.VisitInside` | script.js:321-329 | the same for the direction loop from iteration `k` |
| `MazeProperties.StepInside` | script.js:321-328 | the same for one iteration |
| `MazeProperties.DescendInside` | script.js:325-327 | the same for an iteration that carves |
| `MazeProperties.CarvedCellsInside` | script.js:306-308 | before the exits are opened, rows 0 and `h-1` and columns 0 and `w-1` are all wall; no carved cell is odd in both coordinates relative to the start |
| `MazeProperties.CarveReaches` | script.js:317-330 | every cell a call opens is 4-connected through open cells to the cell the call started at |
| `MazeProperties.VisitReaches` | script.js:321-329 | the same for the direction loop from iteration `k` |
| `MazeProperties.StepReaches` | script.js:321-328 | the same for one iteration |
| `MazeProperties.DescendReaches` | script.js:326-327 | the cell in between is opened before recursing, so the target's cells are reached through it |
| `MazeProperties.CarvedMazeConnected` | script.js:332-335 | after carving, whatever the order mode, every path cell is 4-connected through path cells to the start cell |
| `MazeProperties.PassageEnds` | script.js:322-326 | the cell between a lattice cell and the one two steps away is off the lattice, and those two cells are exactly the two lattice cells it lies between |
| `MazeProperties.CarveTree` | script.js:317-330 | a call at an uncarved lattice cell opens exactly one more lattice cell than passage cells, and keeps every open passage cell between two open lattice cells |
| `MazeProperties.VisitTree` | script.js:321-329 | the direction loop from iteration `k` opens as many lattice cells as passage cells, and keeps every open passage between two open lattice cells |
| `MazeProperties.StepTree` | script.js:321-328 | the same for one iteration |
| `MazeProperties.DescendTree` | script.js:325-327 | a carving iteration cuts one passage whose far end is still a wall, then carves from that end: again as many lattice cells as passages |
| `MazeProperties.CarvedMazeIsTree` | script.js:317-335 | in either order mode, after carving every open passage joins two open lattice cells, and there is one passage fewer than lattice cells, so `|open| == 2·|lattice cells| - 1`. With no corner post open and the cells connected, the carving is a tree: no cycles, and one path between any two carved cells. It spans every lattice cell only with a per-frame order (`CarvedCoversLattice`) |
| `MazeProperties.FrameCovers` | script.js:321 | a frame that has tried all four entries of its order has tried every unit move |
| `MazeProperties.StepSettles` | script.js:325-327 | with a per-frame order, after iteration `k` the target it read is outside the ring or open |
| `MazeProperties.VisitSettles` | script.js:321-329 | with a per-frame order, after the loop every target it read is outside the ring or open |
| `MazeProperties.CarveCloses` | script.js:317-330 | with a per-frame order, every cell of the start's parity that a call opens has all its targets outside the ring or open |
| `MazeProperties.VisitCloses` | script.js:321-329 | the same for the loop from iteration `k` |
| `MazeProperties.StepCloses` | script.js:321-328 | the same for one iteration |
| `MazeProperties.DescendCloses` | script.js:325-327 | the same for an iteration that carves |
| `MazeProperties.LatticeCovered` | script.js:333-335 | if the start is open and no open cell of the start's parity has an uncarved target left, then every interior cell of that parity is open |
| `MazeProperties.CarvedLatticeClosed` | script.js:332-335 | with a per-frame order, after carving no open cell of the start's parity has an uncarved target |
| `MazeProperties.CarvedCoversLattice` | script.js:317-335 | with a per-frame order, carving opens every interior cell with the start's parity in both coordinates (the depth-first search is complete) |
| `ExitOpenings.WithExitsOpens` | script.js:338-345 | the exit pass opens nothing else: every cell open afterwards was open before or belongs to an exit's opening (that all of these are open is `WithExits`'s own contract) |
| `ExitOpenings.InteriorExitOpensItself` | script.js:340-344 | an exit that lies on no edge opens only itself |
| `ExitOpenings.BorderExitNeighbour` | script.js:341-344 | an exit on an edge opens a neighbour on the grid, and that neighbour is interior unless the exit is a corner |
| `ExitOpenings.ExitReached` | script.js:332-345 | with a per-frame order, an exit whose inward neighbour touches a cell of the start's lattice is connected to the start |
| `ExitOpenings.ConfiguredExitsReached` | script.js:31-36 | with a per-frame order, every cell the four configured exits open in the 21 × 21 maze is connected to the start (10, 10), whatever the draws |
| `SharedDirections.SharedDirectionsSkipCell` | script.js:319-329 | with the draws 0.75, 0.9, 0.0, 0.0, 0.9, 0.5, the code as written carves only (3, 2), (4, 2) and (5, 2) of a 7 × 5 grid, while a per-frame order carves (1, 2) too |
| `SharedDirections.FirstShuffle` | script.js:310-315 | the start frame's shuffle with draws 0.75, 0.9, 0.0 orders the moves right, up, down, left |
| `SharedDirections.SecondShuffle` | script.js:310-315 | reshuffling that order with draws 0.0, 0.9, 0.5 gives left, up, down, right |
| `SharedDirections.NestedCarve` | script.js:317-330 | the nested call at (5, 2) opens only itself and leaves left, up, down, right in the shared array |
| `SharedDirections.StartCarve` | script.js:321-329 | back in the start frame, iterations 1 to 3 read up, down and right, so left is never tried |
| `SharedDirections.LiveCarve` | script.js:332-335 | with those draws, the live carving of the 7 × 5 grid is exactly three cells |
| `SharedDirections.SkipDrawsFit` | script.js:312 | some stream of valid draws starts with those six draws |
| `PlayerControls.Lerp` | script.js:220 | `lerp(x, y, t)` moves a fraction `t` of the way from `x` to `y` |
| `PlayerControls.Clamp` | script.js:227 | `Math.min(Math.max(v, lo), hi)` lies in `[lo, hi]`; it is `v` inside, `lo` below, `hi` above |
| `PlayerControls.Turn` | script.js:214-215 | turning left adds `rotateSpeed` to the yaw and turning right subtracts it; holding both or neither leaves it unchanged |
| `PlayerControls.NextPitch` | script.js:218-227 | the new pitch is the old one, eased to 0.9 of itself while walking, plus `rotateSpeed` for look-up, minus `rotateSpeed` for look-down, then clamped to [-π/2, π/2]. So it always lies in that range, and with no look key held an in-range pitch is just scaled by 0.9 while walking and kept otherwise |
| `PlayerControls.LookKeysCancel` | script.js:223-224 | holding both look keys gives the same pitch as holding neither |
| `PlayerControls.PitchMonotone` | script.js:218-227 | the pitch update preserves order: a higher pitch stays at least as high |
| `PlayerControls.Player.constructor` | script.js:108-109 | the player starts with yaw π and pitch 0 |
| `PlayerControls.Player.MovePlayer` | script.js:212-227 | the globals take the values `Turn` and `NextPitch` give, and the pitch stays in [-π/2, π/2] |
| `PlayerControls.FindReachedExit` | script.js:265-277 | it returns the first exit in list order whose centre is closer than 0.5 horizontally, and none exactly when no exit is that close |
| `PlayerControls.ExitCentre` | script.js:269 | the world centre `(x - w/2, -(z - h/2))` of an exit translates back to its grid cell: `x = cx + w/2` and `z = h/2 - cz` |
| `PlayerControls.Near` | script.js:269-272 | a player near an exit is within 0.5 of its centre along each horizontal axis, so inside that exit's cell square |
| `PlayerControls.NearIsDistanceTest` | script.js:269-272 | `Near` holds exactly when the horizontal distance `distanceTo` returns is below 0.5: comparing squares is the same test |
| `PlayerControls.CentresApart` | script.js:269 | the world centres of two different cells are at least 1 apart |
| `PlayerControls.NearAtMostOne` | script.js:268-272 | the player is never within 0.5 of two exits on different cells, so at most one exit can match |
| `RandomFill.DrawCount` | script_jan01.js:86-87 | one call takes one draw per interior cell, and none when the grid has no interior |
| `RandomFill.FilledCell` | script_jan01.js:83-88 | every cell is 0 or 1, and every cell on the outer ring is 1 |
| `RandomFill.DrawIndexInRange` | script_jan01.js:86-88 | every interior cell's draw is among the first `(h-2)·(w-2)` draws of the call |
| `RandomFill.DrawIndexOnto` | script_jan01.js:86-88 | every one of the first `(h-2)·(w-2)` draws is taken for an interior cell: draw `n` for row `n / (w-2) + 1`, column `n % (w-2) + 1`. With `DrawIndexInjective`, the interior cells and those draws correspond one to one |
| `RandomFill.DrawIndexInjective` | script_oldv1.js:88-90 | two different interior cells take two different draws |
| `RandomFill.ClearedIndependently` | script_oldv1.js:90 | changing one interior cell's draw changes no other cell |
| `RandomFill.GenerateMaze` | script_jan01.js:82-93 | the new `height × width` grid has 1 on the ring and 0 on an interior cell exactly when its draw is below 0.3; the call takes exactly one draw per interior cell |
| `OldControls.CalculateExitDirection` | script_oldv1.js:189-198 | the result is one of the four arrows. It is horizontal exactly when `|dx| > |dz|`, so ties go vertical. It is `→` exactly when horizontal with `dx > 0`, and `↑` exactly when vertical with `dz > 0`. Otherwise it is `←` or `↓` |
| `OldControls.ExitDirectionTranslates` | script_oldv1.js:190-191 | moving the exit and the camera by the same offset does not change the arrow |
| `OldControls.ExitDirectionAtExit` | script_oldv1.js:196 | standing on the exit shows `↓` |
| `OldControls.GatedPitch` | script_oldv1.js:136-137 | a pitch within `[-π/4 - rotateSpeed, π/4 + rotateSpeed]` stays in it. Look-up alone lowers it only when above `-π/4`, and look-down alone raises it only when below `π/4` |
| `OldControls.PitchStaysInBand` | script_oldv1.js:136-137 | over any number of frames with any look keys held, the pitch stays in that band |
| `OldControls.Camera.constructor` | script_oldv1.js:11 | the camera starts with rotation (0, π, 0): level, so inside the band that `PitchStaysInBand` keeps |
| `OldControls.Camera.Move` | script_oldv1.js:132-137 | the camera's yaw takes the value `Turn` gives and its pitch the value `GatedPitch` gives |

## Left out

- Collision resolution (`Octree`, `capsuleIntersect`, `Capsule.translate`) is Three.js library code that is not part of this model.
- The movement vectors (`Euler`, `setFromEuler`, `getWorldDirection`, `normalize`) and the forward/backward translation are library floating-point math. `Player.MovePlayer` and `Camera.Move` model only the rotation part.
- The raycaster collision of the old `move` and the AABB experiment of script_jan01.js depend on the library.
- Scene, mesh, texture and renderer setup, `drawMiniMap`, the key listeners, resize and `pageshow` handlers, `setInterval`, `requestAnimationFrame` and the redirect through `window.location` are I/O. `FindReachedExit` returns the index of the exit whose page would open instead of navigating.
- `Math.random` is an injected stream of draws in [0, 1); its distribution is not modelled.
- Floating point: angles, lerp, distances and offsets are exact reals. `Pi` is the decimal JavaScript prints for `Math.PI`. Identities such as `x + 0.05 - 0.05 == x` hold in the model, but not always in doubles. The same holds for two integer-valued tests: `Random.SwapIndex` computes `floor(r · (i + 1))` exactly, while in doubles `Math.floor(0.3333333333333333 * 3)` is 1, not 0. `RandomFill.FilledCell` compares the draw with the real 0.3, which is not the double closest to 0.3. No proved property depends on these roundings, because every property holds for every stream of draws.
- `MazeBuilder.GenerateLogicalMaze`: requires `3 <= width` and `3 <= height`. Below that, no cell two steps away is ever inside the ring, so the code opens only the start cell. With width 0 that write grows an empty row to `[0]`. With height 0 the code throws, because row 0 does not exist. None of these cases is modelled.
- `MazeBuilder.GenerateLogicalMaze`: requires every exit to lie on the grid. Off the grid the JavaScript behaves in ways an `array2` write cannot express. A row index outside the rows throws, because that row is `undefined`. A negative column on an existing row sets a non-index property such as `"-1"` and throws nothing. A column at or past `width` on an existing row grows that row past its end.
- `MazeProperties.CarvedCoversLattice`: completeness is proved for a per-frame order only. For the code as written it does not hold (see Findings). Connectivity, staying inside the ring and the tree count are proved for both. Exit connectivity (`ExitOpenings.ExitReached`, `ExitOpenings.ConfiguredExitsReached`) is proved for a per-frame order only: for the code as written, an exit's inward neighbour can touch a lattice cell that was never carved.
- Exits on the grid's corners open a neighbour on the ring. `ExitOpenings.BorderExitNeighbour` states interiority only for non-corner edge exits.

## Findings

| source | as written | input that shows it | evidently intended | confidence | as-written member | corrected member |
|---|---|---|---|---|---|---|
| script.js:319-329 | every call of `carvePassages` shuffles the one shared `directions` array, and each frame's `for ... of` loop reads that array live. After a nested call returns, the outer loop continues at its next index of an order it did not draw, so it can try one direction twice and another never | `generateLogicalMaze(7, 5, [])` with `Math.random` returning 0.75, 0.9, 0.0, 0.0, 0.9, 0.5 first. Only (3, 2), (4, 2) and (5, 2) become path; (1, 2) stays wall although it is an interior cell of the start's lattice | each frame walks the order it shuffled itself (for instance a shuffled copy), giving a complete recursive-backtracker maze: every lattice cell carved and connected to the start | high; not executed | `SharedDirections.SharedDirectionsSkipCell` | `MazeProperties.CarvedCoversLattice` |
