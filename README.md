# Cliffwald in Dafny

Cliffwald is a multiplayer school-of-magic game. Students of three houses
(Ignis, Axiom and Vesper) follow a daily timetable, cast rock-paper-scissors
spells at one another, duel on the tatami, collect cards and items, and
earn prestige for their house. A Colyseus room on the server holds the
state, and a Phaser client draws it. A set of Node and Python tools builds
the map and the sprites.

This project models the core of that game and proves properties of the
model. It is organised as one module per source file:

- **Tools:**
  - the sprite-sheet occupancy report (`AnalyzeGrid`);
  - the image tools (`NormalMap`, `Upscale`, `ScaleSprites`, `Frames`), which work on the decoded pixel buffers of `Pixels`;
  - the map painters and patchers (`PaintSchool`, `FixedSeats`, `PatchCollisions`, `FindDesks`, over the Tiled values of `Tiled`);
  - the item CSV converter (`SyncItems`).
- **Shared game logic:**
  - the map parser and navigation grid (`MapParser`);
  - A* pathfinding with its binary heap (`Pathfinding`, `Heap`);
  - the spell registry (`SpellRegistry`), the configuration and game clocks (`GameConfig`) and the item registries (`ItemRegistry`, `ItemRegistryDist`);
  - the inventory, stats and AI systems (`InventorySystem`, `StatsSystem`, `AiSystem`, `AiRoutine`).
- **Server:**
  - the spawn manager (`SpawnManager`) and chat (`Chat`);
  - prestige (`Prestige`, `PrestigeDist`) and items (`ItemSystem`, `ItemSystemDist`);
  - the two combat passes (`Combat`), the projectile tick (`SpellSystem`) and duels (`DuelSystem`);
  - the room's own rules (`WorldRoom`): the cast gate, calendar and cup, hourly rewards, move sanitising and joining.
- **Client:** the timetable, album and inventory overlay (`UiManager`) and the heads-up clock and house pillars (`UiScene`).
- **Support modules:**
  - `Strings` models the JavaScript string operations the code relies on: `includes`, `split`, `trim`, `parseInt`, `padStart`, `toLowerCase` and the plain order used for `localeCompare`;
  - `Seqs` models `find`, `filter` and a stable `sort`;
  - `Wrappers` holds Option and Result.

Code that changes state step by step is modelled as classes with loops, and
each of them is proved against a specification function. Pure code is
modelled as functions, with lemmas that state what the source promises.

The duplicated TypeScript and compiled JavaScript builds differ in places,
so both are modelled where they differ:

- the item registry's card order;
- the prestige award;
- the item system;
- the AI: `AiSystem` is the TypeScript wanderer and `AiRoutine` is the compiled timetable routine.

Where such a pair exists, each Model row below cites the file it models.

A teacher id holds no number, so a teacher takes seat 0. When the map
registers bed 0, every teacher's body and player position is therefore
student 0's bed, while its AI home stays its own map position.

## Model

| member | source | states |
|---|---|---|
| AnalyzeGrid.SampleTile | scripts/analyze_grid.py:20-29 | the window loops with their breaks set `has_content` exactly when some in-image pixel of the tile's 8×8 interior has alpha above 0 |
| AnalyzeGrid.ScanRow | scripts/analyze_grid.py:15-36 | one printed row: "Row r: ", a marker per tile left to right, then the count, equal to the specified row line |
| AnalyzeGrid.PrintGrid | scripts/analyze_grid.py:4-39 | the printed lines are the heading, then either the one "Error:" line or the size, grid and one line per tile row in ascending order |
| AnalyzeGrid.AnalyzeSheets | scripts/analyze_grid.py:41-42 | both sheets are reported in order, the second even when the first could not be opened |
| AnalyzeGrid.GridWithinImage | scripts/analyze_grid.py:8-10 | cols·16 ≤ width < (cols+1)·16 and likewise for rows: the grid never exceeds the image and only a partial tile is left unexamined |
| AnalyzeGrid.WindowInBounds | scripts/analyze_grid.py:21-24 | for a tile inside the grid every window pixel is inside the image, so the bounds guard always holds |
| AnalyzeGrid.WindowInsideTile | scripts/analyze_grid.py:21-22 | a window pixel of tile (r, c) lies in that tile, at offsets 4..11 on both axes |
| AnalyzeGrid.BandIndependent | scripts/analyze_grid.py:21-22 | two images agreeing on the window alphas give the same marker: the 4-pixel outer band never matters |
| AnalyzeGrid.MarkersShape | scripts/analyze_grid.py:18-35 | a row has exactly 3·cols marker characters, marker k being "[X]" iff tile k has content |
| AnalyzeGrid.CountIsMarked | scripts/analyze_grid.py:31-36 | the printed count equals the number of tiles of the row that have content, i.e. of "[X]" markers |
| AnalyzeGrid.TransparentCountsZero | scripts/analyze_grid.py:26-36 | an all-transparent sheet counts 0 on every row |
| AnalyzeGrid.OpaqueCountsAll | scripts/analyze_grid.py:26-36 | an all-opaque sheet counts every one of the `cols` tiles |
| AnalyzeGrid.RowLinesShape | scripts/analyze_grid.py:15-36 | exactly `rows` row lines, line r being row r's line |
| AnalyzeGrid.ErrorReport | scripts/analyze_grid.py:38-39 | a failed open prints the heading and a single "Error: msg" line |
| NormalMap.Clamp | tools/generate_normals.js:60-61 | `Math.max(0, Math.min(255, v))`: v itself inside 0..255, 0 below, 255 above |
| NormalMap.NormalPixel | tools/generate_normals.js:26-63 | the pixel written for (x, y) is the specified normal of that pixel |
| NormalMap.GenerateNormals | tools/generate_normals.js:20-65 | the output has the source's size and holds at index width·y+x the normal of source pixel (x, y); the source is a value and is never written |
| NormalMap.TransparentIsFlat | tools/generate_normals.js:29-36 | a pixel with alpha 0 becomes exactly (128, 128, 255, 0) |
| NormalMap.OpaqueKeepsAlpha | tools/generate_normals.js:58-63 | an opaque pixel keeps its alpha and gets blue 255 |
| NormalMap.LeanChannels | tools/generate_normals.js:40-61 | red is 1 iff only the left neighbour is transparent, 255 iff only the right one is, else 128; green likewise with up and down; neighbours outside the image never count |
| NormalMap.InteriorIsFlat | tools/generate_normals.js:40-57 | a pixel whose in-image 4-neighbours are all opaque gets red = green = 128 |
| NormalMap.LonePixelIsFlat | tools/generate_normals.js:45-53 | a 1×1 opaque image reads no neighbour and gives (128, 128, 255, alpha) |
| Upscale.BlockInRange | tools/upscale_teachers.js:23 | every destination index of a source pixel's 2×2 block lies inside the new buffer |
| Upscale.BlockDistinct | tools/upscale_teachers.js:12-30 | blocks of pixels visited earlier never overlap a later block, so each destination pixel is written once |
| Upscale.CopyBlock | tools/upscale_teachers.js:21-29 | the four pixels of block (x, y) take the source pixel and every other destination pixel is unchanged |
| Upscale.UpscaleImage | tools/upscale_teachers.js:8-31 | the output is (2·width)×(2·height) and dst(2x+dx, 2y+dy) = src(x, y) for dx, dy in {0, 1} |
| Upscale.BlocksCover | tools/upscale_teachers.js:12-30 | every destination pixel (X, Y) is src(X div 2, Y div 2): the blocks cover the whole output |
| ScaleSprites.DownIsDiv | tools/scale_sprites.js:25-26 | `Math.floor(x / factor)` on naturals is integer division |
| ScaleSprites.ScaleRow | tools/scale_sprites.js:24-34 | one output row: pixel x takes source pixel (x div factor, y div factor), and nothing outside the row changes |
| ScaleSprites.ScaleRows | tools/scale_sprites.js:23-35 | every output pixel (x, y) takes source pixel (x div factor, y div factor) |
| ScaleSprites.ScalePng | tools/scale_sprites.js:14-36 | the output is factor·width × factor·height, every source index read is in bounds, and dst(x, y) = src(x div factor, y div factor) |
| ScaleSprites.FactorOneIsIdentity | tools/scale_sprites.js:25-33 | with factor 1 the output is the input pixel for pixel |
| ScaleSprites.FirstMissing | tools/scale_sprites.js:16-41 | the first listed sprite that cannot be read: every earlier one exists, it does not |
| ScaleSprites.ScaleAll | tools/scale_sprites.js:5-41 | the listed sprites are rescaled by 2 in order and written back under their own names until the first missing file, which stops the script; no other file changes |
| Frames.PaintFrame | tools/generate_frames.js:18-42 | a 64×86 buffer holding at each (x, y) the frame pixel |
| Frames.BorderIffOpaque | tools/generate_frames.js:27-40 | a pixel has the frame colour with alpha 255 iff x < 4, x ≥ 60, y < 4 or y ≥ 82; every other pixel is (0, 0, 0, 0) |
| Frames.CentreAndCorner | tools/generate_frames.js:27-40 | the centre is transparent and the corners are opaque |
| Frames.GenerateFrames | tools/generate_frames.js:5-48 | one 64×86 buffer per entry of `frames`, in order, named and coloured from that entry |
| Pixels.IdxInRange | tools/scale_sprites.js:27-28 | an index width·y+x of an in-image pixel lies inside a width·height buffer |
| Pixels.IdxOnto | tools/patch_collisions.js:59-60 | a flat index i is the index of (i mod width, i div width) |
| PaintSchool.OriginAtTile | tools/paint_school.js:45-48 | a collider matches tile (x, y) exactly when its pixel origin is that tile times 32 |
| PaintSchool.Painter.constructor | tools/paint_school.js:11-30 | a fresh 100×100 ground layer of grass (tile 1) and empty collision and entity lists |
| PaintSchool.Painter.AddCollision | tools/paint_school.js:34-43 | appends one 32×32 wall collider at the tile's pixel origin; zones untouched |
| PaintSchool.Painter.ClearCollision | tools/paint_school.js:45-49 | the collider list loses exactly the colliders whose origin is that tile, order kept |
| PaintSchool.Painter.PaintRoom | tools/paint_school.js:51-74 | the room's interior becomes floor (2), its one-tile ring becomes wall (3), every other cell keeps its tile; the ring's colliders are appended in the source's order and one Zone entity of the room's pixel rectangle is added |
| PaintSchool.Painter.PaintRowWalls | tools/paint_school.js:59-62 | the rows above and below the room, one tile past each side, become wall, nothing else changes, and their colliders are appended top/bottom pairwise |
| PaintSchool.Painter.PaintSideWalls | tools/paint_school.js:63-66 | the columns left and right of the room become wall over the room's height, nothing else changes, colliders appended left/right pairwise |
| PaintSchool.Painter.PaintFloor | tools/paint_school.js:53-57 | exactly the room's interior becomes floor |
| PaintSchool.Painter.PaintCorridor | tools/paint_school.js:76-83 | every cell of the corridor rectangle (corner order free) becomes floor, others keep their tile, and every collider on the rectangle is removed |
| PaintSchool.Painter.CorridorRow | tools/paint_school.js:78-81 | one corridor row: its cells become floor and the colliders on it are filtered out |
| PaintSchool.Painter.AddDoor | tools/paint_school.js:85-95 | returns the door tile for the side; the tile and its right neighbour become floor with their colliders removed, all other cells unchanged; an unknown side leaves the map as it was |
| PaintSchool.ClearedStep | tools/paint_school.js:78-81 | clearing one more tile in a row extends the cleared region by that tile |
| PaintSchool.WithoutSpec | tools/paint_school.js:45-49 | clearCollision keeps exactly the colliders not at the tile, as a subsequence of the old list |
| PaintSchool.RowWallsShape | tools/paint_school.js:59-62 | the row loop emits 2·n colliders, k-th pair at (tx-1+k, ty-1) then (tx-1+k, ty+th) |
| PaintSchool.SideWallsShape | tools/paint_school.js:63-66 | the side loop emits 2·n colliders, k-th pair at (tx-1, ty+k) then (tx+tw, ty+k) |
| PaintSchool.RoomWallsSpec | tools/paint_school.js:58-66 | a room emits 2·(tw+th+2) wall colliders, each on the ring, and every ring tile gets one |
| PaintSchool.RoomWallsSound | tools/paint_school.js:58-66 | every emitted wall collider lies on the room's ring |
| PaintSchool.RoomWallsComplete | tools/paint_school.js:58-66 | every tile of the ring gets a wall collider |
| PaintSchool.CorridorOrderFree | tools/paint_school.js:77-78 | the Math.min/Math.max bounds make the corridor the same rectangle whichever corner comes first |
| PaintSchool.CorridorKeepsSpec | tools/paint_school.js:76-83 | after a corridor no collider lies on it, every collider off it survives, and the result is a subsequence of the old list |
| PaintSchool.CorridorIdempotent | tools/paint_school.js:76-83 | painting the same corridor twice removes nothing more |
| PaintSchool.DoorOnRing | tools/paint_school.js:85-94 | every door tile lies on the room's ring; for top/bottom its right neighbour is on the ring too, for left it is inside the room, for right it is outside both |
| FixedSeats.GenerateSeats | tools/patch_fixed_seats.js:17-87 | exactly 72 objects, the k-th being the specified seat k (beds, then class seats, then food seats) |
| FixedSeats.PushBeds | tools/patch_fixed_seats.js:20-41 | the bed loop pushes the 24 beds in house order ignis, axiom, vesper, and the id counter ends at 2024 |
| FixedSeats.PushClassSeats | tools/patch_fixed_seats.js:43-64 | the classroom loop appends seats 24..47 after the beds, the id counter ends at 2048 |
| FixedSeats.PushFoodSeats | tools/patch_fixed_seats.js:66-87 | the Great Hall loop appends seats 48..71 in house order ignis, vesper, axiom, the id counter ends at 2072 |
| FixedSeats.PatchFixedSeats | tools/patch_fixed_seats.js:89-102 | the FixedSeats objectgroup with the 72 seats becomes layer 0, the old layers follow in their order and every other map field is unchanged; a map without layers is an error |
| FixedSeats.SeatIdsAndKinds | tools/patch_fixed_seats.js:18-74 | seat k has id 2000+k and type bed, seat_class or seat_food by its range |
| FixedSeats.BedPlacement | tools/patch_fixed_seats.js:21-30 | bed for house h, slot i is object 8h+i with studentId 8h+i at (base.x + 64i − 224, base.y) |
| FixedSeats.ClassPlacement | tools/patch_fixed_seats.js:44-57 | class seat i has studentId i and sits at (1440 + 96·((i mod 8) div 2) + 16 + 32·(i mod 2), 1312 + 64·(i div 8) + 40) |
| FixedSeats.FoodPlacement | tools/patch_fixed_seats.js:67-76 | food seat for house h, slot i sits at x = 1600 + 32i − 112 with y offset −64, +64, 0 for ignis, vesper, axiom |
| FixedSeats.StudentsOncePerKind | tools/patch_fixed_seats.js:24-70 | within each seat type every studentId 0..23 occurs, and on exactly one seat |
| PatchCollisions.CollidersFor | tools/patch_collisions.js:30-69 | one collider per hit, the j-th with id firstId + j at the hit's tile |
| PatchCollisions.ScanFurniture | tools/patch_collisions.js:24-74 | the scan loop emits the colliders of the Furniture cells equal to 4, in index order, and the id counter advances by their number |
| PatchCollisions.PatchCollisions | tools/patch_collisions.js:8-76 | a missing Furniture or Collisions layer is an error; otherwise the colliders are appended after the existing collision objects and nextobjectid advances by their count, nothing else changes |
| PatchCollisions.CollidersSpec | tools/patch_collisions.js:22-69 | as many colliders as Furniture cells equal to 4, consecutive ids from the old nextobjectid, each 64×16 |
| PatchCollisions.CollidersPlaced | tools/patch_collisions.js:26-34 | every table cell i gets a collider, the one numbered by the count of table cells before it, at ((i mod width)·tilewidth, (i div width)·tileheight) |
| Tiled.FindLayerIndex | tools/patch_collisions.js:8-9 | `layers.find` by name: the index of the first layer with that name, no earlier layer has it, and the length when there is none |
| Tiled.FindLayer | tools/find_desks.js:21 | a layer is found exactly when some layer has the name, and the one found is a layer of that name |
| Tiled.Hits | tools/patch_collisions.js:26-27 | the scanned indices are below the bound and each holds the wanted tile id |
| Tiled.HitsSpec | tools/find_desks.js:33-35 | the indices come in increasing order and every matching index is among them |
| Tiled.HitsExtend | tools/patch_collisions.js:26-27 | scanning further only appends: a shorter scan's hits are a prefix of a longer one's |
| Tiled.HitsRank | tools/patch_collisions.js:26-60 | a matching index i is the hit numbered by the count of matches before it |
| Tiled.HitsCount | tools/patch_collisions.js:26-72 | the number of hits is the number of cells holding the tile id |
| Tiled.HitsPrefix | tools/patch_collisions.js:26-27 | hits up to n depend only on the first n cells |
| FindDesks.FindTableGid | tools/find_desks.js:5-13 | the loop leaves the firstgid of the last tileset named "table" or sourced from a path containing "table.tsx", or -1 |
| FindDesks.LastTableGidSpec | tools/find_desks.js:6-13 | no table tileset gives -1; otherwise the result is the firstgid of a table tileset with no table tileset after it |
| FindDesks.ScanTables | tools/find_desks.js:27-45 | one position per table cell, in index order, at ((i mod width)·32, (i div width)·32) |
| FindDesks.FindDesks | tools/find_desks.js:1-48 | no table tileset is an error, a map without a layers array is an error (the TypeError of `map.layers.find` at line 21), a missing Furniture layer is an error, otherwise the table positions of the Furniture layer |
| FindDesks.TablesSpec | tools/find_desks.js:33-44 | as many tables as cells holding the table gid, and every such cell is reported |
| SyncItems.FieldAt | tools/sync_items.js:23-25 | a missing column gives undefined, "true" and "false" become booleans, any other text is kept as it is |
| SyncItems.Keys | tools/sync_items.js:22-26 | one trimmed key per header |
| SyncItems.ParseRow | tools/sync_items.js:20-27 | the row's object maps each trimmed header to the field at its column, a later duplicate header overwriting an earlier one |
| SyncItems.HeaderKey | tools/sync_items.js:26 | the key of a header column is the trimmed header |
| SyncItems.Sync | tools/sync_items.js:7-32 | a missing file is an error, a file with no non-blank line is an error (`lines[0]` undefined), otherwise the items keyed by ID from every data row |
| SyncItems.CollectLines | tools/sync_items.js:17-32 | the loop stores each data row with a truthy ID under that ID |
| SyncItems.LinesSpec | tools/sync_items.js:14 | the kept lines are exactly the newline-separated lines that are not blank after trimming, in their order |
| SyncItems.RowItemKeys | tools/sync_items.js:22-27 | a row's object has exactly the header keys |
| SyncItems.RowItemField | tools/sync_items.js:22-27 | the last header with a given key decides that key's field |
| SyncItems.CollectKeys | tools/sync_items.js:29-31 | an ID is stored exactly when some row has it |
| SyncItems.LaterRowWins | tools/sync_items.js:29-31 | a later row with the same ID replaces an earlier one |
| SyncItems.StoredHaveIds | tools/sync_items.js:29-31 | every stored item carries the ID it is stored under |
| SyncItems.QuotedCommaSplits | tools/sync_items.js:20 | the naive split breaks a quoted field `"a,b"` into two values |
| SyncItems.FieldsPerRow | tools/sync_items.js:20 | a line splits into one more field than it has commas |
| MapParser.GetLayer | src/shared/MapParser.ts:42-44 | a layer is found exactly when some layer has the name, and it is the first such layer |
| MapParser.GetObjectsSpec | src/shared/MapParser.ts:46-49 | a non-empty result is the objects of the first layer of that name, which is an objectgroup; no layer of that name gives [] |
| MapParser.FindProperty | src/shared/MapParser.ts:52 | `properties.find`: the first property with the name, or the length when none has it |
| MapParser.GetProperty | src/shared/MapParser.ts:51-53 | undefined exactly when there is no properties list or no property has the name; otherwise the value of the first property of that name |
| MapParser.FileSeat | src/shared/MapParser.ts:65-76 | one object files its position under its studentId in the bed, class or food table by its type; no studentId or another type leaves the tables as they were |
| MapParser.ParseSeats | src/shared/MapParser.ts:57-79 | the three tables are built from the FixedSeats objects, kind by kind |
| MapParser.SeatTableKeys | src/shared/MapParser.ts:65-76 | a studentId is in a kind's table exactly when some object of that kind carries it |
| MapParser.SeatTableLastWins | src/shared/MapParser.ts:73-75 | `Map.set` overwrites: the last object of a kind with a studentId decides its position |
| MapParser.PatchedBeds | src/shared/MapParser.ts:57-79 | on a map whose layer 0 is the generated FixedSeats layer, student s's bed is at the generated bed position of house s div 8, slot s mod 8 |
| MapParser.OrElse | src/shared/MapParser.ts:87-89 | `a \|\| b`: a when it is present and truthy, b otherwise |
| MapParser.ParseNpcs | src/shared/MapParser.ts:81-91 | one NPC per NPCs-layer object, in order, each built from its object |
| MapParser.NpcDefaults | src/shared/MapParser.ts:83-90 | id and position are copied; an empty or missing name gives "Unknown"; type falls back to the "type" property and then "teacher"; skin falls back to "teacher" |
| MapParser.FindSpawn | src/shared/MapParser.ts:95 | the first Entities object named "Spawn" or of type "Spawn" |
| MapParser.ParseEntitiesSpec | src/shared/MapParser.ts:93-99 | with no spawn object the spawn position is (256, 256); otherwise it is the position of the first spawn object |
| MapParser.FloorDiv | src/shared/MapParser.ts:133-134 | `Math.floor(a / b)`: the greatest q with q·b ≤ a |
| MapParser.CeilDiv | src/shared/MapParser.ts:135-136 | `Math.ceil(a / b)`: the least q with a ≤ q·b |
| MapParser.TileOr32 | src/shared/MapParser.ts:109-110 | `tilewidth \|\| 32`: a positive tile size, the map's own when it is non-zero |
| MapParser.CoversSpan | src/shared/MapParser.ts:133-139 | tile x is in the floor/ceil span exactly when the tile overlaps the pixel interval |
| MapParser.CoversIffOverlap | src/shared/MapParser.ts:133-143 | an object marks tile (x, y) exactly when its rectangle overlaps the tile's |
| MapParser.BlockedIff | src/shared/MapParser.ts:117-145 | a tile is blocked exactly when some collision object covers it |
| MapParser.MarkRow | src/shared/MapParser.ts:139-143 | one row of the span is set to 1, every other cell unchanged |
| MapParser.MarkObject | src/shared/MapParser.ts:133-144 | the cells the object covers within the grid become 1, all others unchanged |
| MapParser.BuildNavGrid | src/shared/MapParser.ts:101-153 | a map without a layers array gives an empty grid and zero sizes; otherwise a height×width grid whose cell is 1 exactly when some collision object covers it, with tile sizes defaulting to 32 |
| MapParser.NavGridMeaning | src/shared/MapParser.ts:113-145 | a cell is a wall exactly when some collision rectangle overlaps the tile's pixel rectangle |
| Heap.Parent | src/shared/systems/Pathfinding.ts:170 | `((n + 1) >> 1) - 1` is a smaller position with n one of its two children |
| Heap.HeapMin | src/shared/systems/Pathfinding.ts:136-144 | in a heap the root has the least score |
| Heap.SwapUp | src/shared/systems/Pathfinding.ts:172-175 | swapping an entry above its parent moves the only heap violation one level up |
| Heap.SwapDown | src/shared/systems/Pathfinding.ts:205-208 | swapping with the smaller child moves the only heap violation one level down |
| Heap.IndexOf | src/shared/systems/Pathfinding.ts:147-164 | `indexOf`: the first entry with the key, or -1 exactly when no entry has it |
| Heap.BinaryHeap.constructor | src/shared/systems/Pathfinding.ts:126-129 | a new heap is empty |
| Heap.BinaryHeap.Size | src/shared/systems/Pathfinding.ts:159-161 | the number of entries |
| Heap.BinaryHeap.Push | src/shared/systems/Pathfinding.ts:131-134 | the entries gain exactly the pushed one and a heap stays a heap |
| Heap.BinaryHeap.Pop | src/shared/systems/Pathfinding.ts:136-144 | an empty heap gives undefined and stays empty; otherwise the root is returned and removed, the rest kept, a heap stays a heap and the result has the least score |
| Heap.BinaryHeap.RescoreElement | src/shared/systems/Pathfinding.ts:163-165 | a missing key changes nothing; otherwise the entry's score is replaced and, when it did not grow, the heap order is restored |
| Heap.BinaryHeap.SinkDown | src/shared/systems/Pathfinding.ts:167-180 | the entries are only permuted; if the entry at n was the only violation, toward the root, the result is a heap; n ≤ 0 changes nothing |
| Heap.BinaryHeap.ChooseSwap | src/shared/systems/Pathfinding.ts:188-203 | the child chosen is a child with a smaller score than the element and the least of the children; none is chosen only when no child is smaller |
| Heap.BinaryHeap.BubbleUp | src/shared/systems/Pathfinding.ts:182-213 | the entries are only permuted; if the entry at n was the only violation, toward the leaves, the result is a heap |
| Heap.BinaryHeap.RemoveAsWritten | src/shared/systems/Pathfinding.ts:146-157 | the source as written: the entries are those of the write-back that compares `i` with the length after `pop` |
| Heap.BinaryHeap.Remove | src/shared/systems/Pathfinding.ts:146-157 | the intended removal (see Findings): exactly the entry with the key leaves the heap and a heap stays a heap |
| Heap.BinaryHeap.Resettle | src/shared/systems/Pathfinding.ts:150-155 | after the last entry is written over the removed one, sinkDown or bubbleUp by score comparison restores the heap without changing the entries |
| Heap.DropEntry | src/shared/systems/Pathfinding.ts:148-150 | writing the popped last entry over position i, or popping when i is the last, removes exactly the entry at i |
| Heap.Refill | src/shared/systems/Pathfinding.ts:151-155 | the written-over entry violates the heap only upward when it is smaller than the removed one, only downward otherwise |
| Heap.RemoveWriteBackSlips | src/shared/systems/Pathfinding.ts:148-149 | the as-written test keeps the removed node in a one-entry heap and drops the wrong entry from a two-entry heap |
| Pathfinding.CellOfCentre | src/shared/systems/Pathfinding.ts:106-108 | a path point `x·32 + 16`, read back with `Math.floor(p / 32)` as at lines 21-24, gives its own tile |
| Pathfinding.DistSpec | src/shared/systems/Pathfinding.ts:94-101 | the octile distance `(dx + dy) + (1.414 − 2)·min(dx, dy)`, scaled by 1000; symmetric and zero only on the same cell |
| Pathfinding.DistConsistent | src/shared/systems/Pathfinding.ts:53-101 | the heuristic never drops by more than a step's cost, so it is consistent |
| Pathfinding.AddNode | src/shared/systems/Pathfinding.ts:78-81 | a new node reached by a legal step from a known node keeps every node's parent chain a legal path back to the start |
| Pathfinding.ImproveNode | src/shared/systems/Pathfinding.ts:82-86 | re-parenting a node on a cheaper legal step keeps every parent chain valid |
| Pathfinding.TrackedAfter | src/shared/systems/Pathfinding.ts:80-86 | every open-set entry still names a known node after a push or rescore |
| Pathfinding.KeyCell | src/shared/systems/Pathfinding.ts:48-67 | the key `y·width + x` determines the cell |
| Pathfinding.DirShape | src/shared/systems/Pathfinding.ts:53-71 | the eight directions are unit moves, and exactly the diagonals cost more than a straight step |
| Pathfinding.Reversed | src/shared/systems/Pathfinding.ts:111 | `path.reverse()` |
| Pathfinding.ReverseBackPath | src/shared/systems/Pathfinding.ts:103-112 | the reversed parent walk is a legal path |
| Pathfinding.ReconstructPath | src/shared/systems/Pathfinding.ts:103-112 | the path runs from the start tile's centre to the node's tile centre through legal steps only |
| Pathfinding.Finder.constructor | src/shared/systems/Pathfinding.ts:11-15 | height is the row count and width the first row's length, or 0 |
| Pathfinding.Finder.AddNeighbor | src/shared/systems/Pathfinding.ts:78-81 | a new node with g, h = octile distance to the goal, f = g + h and the current node as parent is recorded and pushed |
| Pathfinding.Finder.ImproveNeighbor | src/shared/systems/Pathfinding.ts:82-86 | a cheaper route updates g, f and the parent and rescores the entry, the set of known nodes unchanged |
| Pathfinding.Finder.Neighbor | src/shared/systems/Pathfinding.ts:61-73 | a neighbour is taken exactly when it is in bounds, not a wall and, for a diagonal, both cells it passes are not walls |
| Pathfinding.Finder.Relax | src/shared/systems/Pathfinding.ts:60-88 | one direction's update keeps every node's parent chain legal and the open set naming known nodes |
| Pathfinding.Finder.Key | src/shared/systems/Pathfinding.ts:67 | `ny * width + nx` |
| Pathfinding.Finder.Reach | src/shared/systems/Pathfinding.ts:75-87 | adding or improving the neighbour keeps the search state consistent |
| Pathfinding.Finder.Expand | src/shared/systems/Pathfinding.ts:51-88 | expanding the current node over all 8 directions keeps the search state consistent |
| Pathfinding.Finder.FindPath | src/shared/systems/Pathfinding.ts:17-92 | no path on an empty grid, for an out-of-bounds start or end, or when either is a wall; any path returned starts at the start tile's centre, ends at the end tile's centre and moves only by legal steps avoiding walls and corner cuts |
| Pathfinding.Finder.Search | src/shared/systems/Pathfinding.ts:39-91 | the A* loop terminates, and any path it returns is legal from the start to the end |
| Pathfinding.Finder.NodeKeysBounded | src/shared/systems/Pathfinding.ts:33-80 | at most width·height nodes are ever known, which bounds the loop |
| Pathfinding.NoCornerCut | src/server/verify_npc_behavior.test.ts:118-143 | with a wall at (0, 1) no path from (0, 0) steps diagonally to (1, 1) |
| Pathfinding.PathAvoidsWalls | src/shared/systems/Pathfinding.ts:65 | no point of a returned path lies on a wall |
| SpellRegistry.FirstKeyInSpec | src/shared/items/SpellRegistry.ts:46-48 | the key loop stops at the first key the id contains, or past the end when it contains none |
| SpellRegistry.GetSpellTypeSpec | src/shared/items/SpellRegistry.ts:45-50 | UNKNOWN exactly when the id contains no registry key; otherwise the type of the first key, in registry order, that the id contains |
| SpellRegistry.GetSpellTypeExamples | src/shared/items/SpellRegistry.ts:17-50 | "triangle#1" is scissors, "circle" is rock, and "line" is unknown because line has no entry |
| SpellRegistry.TriangleFirst | src/shared/items/SpellRegistry.ts:18-47 | an id starting with "triangle" and holding neither 'c' nor 's' classifies as scissors |
| SpellRegistry.NoKeyInLine | src/shared/items/SpellRegistry.ts:17-43 | no registry key occurs in "line" |
| SpellRegistry.ResolveRps | src/shared/items/SpellRegistry.ts:52-58 | 0 exactly on a tie, 1 exactly when t1 beats t2 (rock > scissors > paper > rock), 2 otherwise |
| SpellRegistry.ResolveAntisymmetric | src/shared/items/SpellRegistry.ts:52-58 | for distinct known types, t1 wins against t2 exactly when t2 loses against t1 |
| SpellRegistry.UnknownNeverWins | src/shared/items/SpellRegistry.ts:57 | any distinct pair involving UNKNOWN gives 2 in either order |
| GameConfig.JsRem | dist-server/shared/Config.js:95-127 | JavaScript `%`: the Euclidean remainder for a non-negative dividend, a non-positive one above −b for a negative dividend |
| GameConfig.GetGameTime | dist-server/shared/Config.js:93-118 | hour 0..23 and minute 0..59; night exactly when the position in the hour is at least 2 700 000 ms |
| GameConfig.MinuteBounds | dist-server/shared/Config.js:104-114 | `Math.floor(total % 60)` lies in 0..59 and together with the hour makes up floor(total) |
| GameConfig.GameTimePeriodic | dist-server/shared/Config.js:95 | the clock depends only on the timestamp modulo one hour |
| GameConfig.GameTimeAnchors | dist-server/shared/Config.js:99-116 | position 0 reads 06:00 by day, position 2 700 000 reads 22:00 by night, and day hours stay within 6..21 |
| GameConfig.GameMinutesMonotone | dist-server/shared/Config.js:102-112 | within one phase the game minutes never decrease |
| GameConfig.ClockShowsTotal | dist-server/shared/Config.js:103-114 | hour and minute together read the game minutes modulo one day |
| GameConfig.TotalBounds | dist-server/shared/Config.js:103-112 | game minutes range over 360 to 1800 in one cycle |
| GameConfig.FloorShift | dist-server/shared/Config.js:104-114 | the `% 24` on the hour wraps the minutes past midnight into one day |
| GameConfig.GetGameHour | dist-server/shared/Config.js:119-122 | the hour of the clock at the given time, 0..23 |
| GameConfig.ProgressBounds | dist-server/shared/Config.js:123-131 | from the start on: week 1..8, course = weeks div 8 + 1 ≥ 1, the month of that week, and 8·(course−1) + week−1 equals the whole weeks elapsed |
| GameConfig.CourseAdvances | dist-server/shared/Config.js:125-127 | eight more weeks make exactly one more course, at the same week and month |
| GameConfig.ProgressBeforeStart | dist-server/shared/Config.js:124-129 | before the start the week is −6..1, the course ≤ 0, and any week other than 1 reads "June" |
| ItemRegistry.GetAllCardsSpec | src/shared/data/ItemRegistry.ts:16-24 | the card list holds exactly the registry's Type "Card" entries, each as often as it occurs, in ascending order of the number after the first '_', NaN read as 0 |
| ItemRegistry.TotalCards | src/shared/data/ItemRegistry.ts:26 | the number of card entries, at most the registry's size |
| ItemRegistry.CardNumberOf | src/shared/data/ItemRegistry.ts:20-21 | an ID `prefix_n` with no '_' in the prefix reads as card number n |
| ItemRegistryDist.NumbersFirstOrders | dist-server/shared/data/ItemRegistry.js:13-23 | the numbers-first comparator is a total preorder, so the sort it drives is well defined |
| ItemRegistryDist.GetAllCardsDistSpec | dist-server/shared/data/ItemRegistry.js:10-24 | exactly the card entries, each once per occurrence; numbered cards first, ascending; the unnumbered rest in ID order |
| ItemRegistryDist.TotalCardsDist | dist-server/shared/data/ItemRegistry.js:26 | the number of card entries |
| ItemRegistryDist.SameCardsBothBuilds | dist-server/shared/data/ItemRegistry.js:10-26 | the server and client builds list the same cards, with the same count, differing only in order |
| InventorySystem.Capped | src/shared/systems/InventorySystem.ts:13-15 | a list longer than the capacity is cut to its first `capacity` items, a shorter one is kept |
| InventorySystem.MaintainedSpec | src/shared/systems/InventorySystem.ts:13-18 | afterwards at most `capacity` items, none with count ≤ 0, a subsequence of the first `capacity` original items in their order |
| InventorySystem.MaintainedIdempotent | src/shared/systems/InventorySystem.ts:9-19 | running the system twice equals running it once |
| InventorySystem.CapBeforeFilter | src/shared/systems/InventorySystem.ts:13-18 | the cut comes before the filter: an item beyond capacity is dropped even if removing an empty one would free room |
| InventorySystem.Inventory.constructor | src/shared/systems/InventorySystem.ts:10 | an inventory component with the given items and capacity |
| InventorySystem.Inventory.Maintain | src/shared/systems/InventorySystem.ts:12-18 | the component's items become the capped, filtered list; the capacity is unchanged |
| InventorySystem.Run | src/shared/systems/InventorySystem.ts:4-20 | every inventory component is maintained, its capacity unchanged |
| StatsSystem.NextThreshold | src/shared/systems/StatsSystem.ts:19 | `Math.floor(expToNext * 1.5)` |
| StatsSystem.Clamped | src/shared/systems/StatsSystem.ts:12-13 | hp is cut to maxHp and mp to maxMp, everything else as it was |
| StatsSystem.StepBounds | src/shared/systems/StatsSystem.ts:12-26 | afterwards hp ≤ maxHp and mp ≤ maxMp; at most one level is gained, only below level 100, so the level never passes 100 |
| StatsSystem.StepLevelUp | src/shared/systems/StatsSystem.ts:16-26 | on a level-up exp drops by the old threshold, the threshold becomes ⌊1.5·old⌋, maxHp +10 with hp full, maxMp +5 with mp full, speed +0.5 |
| StatsSystem.StepNoLevelUp | src/shared/systems/StatsSystem.ts:12-16 | without a level-up only the hp/mp clamps change anything |
| StatsSystem.Stats.constructor | src/shared/systems/StatsSystem.ts:9 | a stats component with the given values |
| StatsSystem.Stats.Update | src/shared/systems/StatsSystem.ts:11-29 | the component's new values are one step of clamping and level-up |
| StatsSystem.Run | src/shared/systems/StatsSystem.ts:4-31 | every player's stats component takes exactly one step |
| AiSystem.Direction | src/shared/systems/AISystem.ts:24-28 | never left with right nor up with down; directions 0..3 set exactly one flag, 4..7 one horizontal and one vertical flag, any other value none |
| AiSystem.IdleStep | src/shared/systems/AISystem.ts:9-29 | an idle agent starts patrolling exactly when its timer passes 2 s, with the timer reset and the drawn direction; otherwise it stays idle, still, its timer grown by dt |
| AiSystem.PatrolAndChaseStep | src/shared/systems/AISystem.ts:30-43 | a patrol ends after more than 1 s and a chase after more than 5 s, idle with the timer reset; the movement flags are kept |
| AiSystem.OtherStep | src/shared/systems/AISystem.ts:9-44 | any other state only has its timer grown |
| AiSystem.Brain.constructor | src/shared/systems/AISystem.ts:5 | an ai component with the given state and timer |
| AiSystem.Input.constructor | src/shared/systems/AISystem.ts:5 | an input component with no movement flag set |
| AiSystem.StepEntity | src/shared/systems/AISystem.ts:8-43 | the entity's ai and input components become one step of the state machine |
| AiSystem.Run | src/shared/systems/AISystem.ts:4-45 | every entity takes exactly one step with its own drawn direction |
| AiRoutine.DistSq | dist-server/shared/systems/AISystem.js:105 | a squared distance is never negative |
| AiRoutine.NumericId | dist-server/shared/systems/AISystem.js:21 | a number id is itself; no id or "" gives 0; a string id gives `parseInt(id) \|\| 0` |
| AiRoutine.StartDelay | dist-server/shared/systems/AISystem.js:111 | `(numericId % 8) * 500` with JavaScript's sign-keeping `%`: 0..3500 for a non-negative id, −3500..0 for a negative one |
| AiRoutine.DailyTimetable | dist-server/shared/systems/AISystem.js:69-102 | hour by hour: sleep 0-6, eat 7, class 8-9, training 10-11, courtyard 12-13, forest 14-16, class 17-18, eat 19-20, sleep 21-23 |
| AiRoutine.DestinationSpec | dist-server/shared/systems/AISystem.js:66-103 | without routine spots the destination is home, facing down; with them eat/class face up and go to their spot, sleep goes to the bed, and training, courtyard and forest use the spread around their place with radius 200, 150 and 400 |
| AiRoutine.DuelTargetLost | dist-server/shared/systems/AISystem.js:60-64 | a duel whose opponent is gone ends, idle with the timer reset, nothing else touched |
| AiRoutine.DuelCasts | dist-server/shared/systems/AISystem.js:23-59 | a duelling agent stays in the duel, moves by the duel vector, faces its opponent, and casts exactly when the timer passes 2.5 s, a drawn shape at 400 px/s along the aim, resetting the timer |
| AiRoutine.ArrivedIdles | dist-server/shared/systems/AISystem.js:125-214 | within 20 px of the destination the agent is idle (timer reset unless it already was), all movement flags are off, it faces the activity's way and casts nothing |
| AiRoutine.TargetChangeWaits | dist-server/shared/systems/AISystem.js:106-123 | a changed destination is stored and the agent becomes idle with the timer reset; it leaves at once only when the start delay is negative |
| AiRoutine.ChooseAsWrittenNoStart | dist-server/shared/systems/AISystem.js:108-122 | the source as written: with a non-negative id, an agent not yet on a route does not start one this frame |
| AiRoutine.AsWrittenNeverStarts | dist-server/shared/systems/AISystem.js:104-124 | the source as written: a whole frame of such an agent never puts it on a route |
| AiRoutine.AsWrittenNeverStartsOver | dist-server/shared/systems/AISystem.js:104-124 | the source as written: nor does any number of frames in the same surroundings |
| AiRoutine.StudentIdIsZero | dist-server/shared/systems/AISystem.js:21 | an id such as "student_1" reads as 0 |
| AiRoutine.StaggeredStart | dist-server/shared/systems/AISystem.js:110-122 | the intended start (see Findings): an agent waiting for its stored destination leaves exactly once its timer passes the start delay, with a fresh route and the timer reset, and waits unchanged until then |
| AiRoutine.ChooseVersionsAgree | dist-server/shared/systems/AISystem.js:104-131 | the intended version differs from the source only for an agent waiting idle for a stored destination |
| AiRoutine.WaypointReached | dist-server/shared/systems/AISystem.js:137-203 | within 12 px of the next waypoint it is dropped and nothing else changes; an empty route makes the agent idle with the timer reset |
| AiRoutine.NoRouteIdles | dist-server/shared/systems/AISystem.js:133-203 | with no pathfinder, or none or an empty route found, a routine agent turns idle with the timer reset |
| AiRoutine.Steering | dist-server/shared/systems/AISystem.js:145-198 | the analog direction is the steering vector, flags follow the ±0.3 thresholds and never conflict, and the route is forgotten exactly when the agent is nearly still for more than 2 s |
| AiRoutine.Brain.constructor | dist-server/shared/systems/AISystem.js:16 | an idle ai component with a zero timer, home and spots, and no target or route |
| AiRoutine.Input.constructor | dist-server/shared/systems/AISystem.js:16 | an input component with no flag and no analog direction |
| AiRoutine.Facing.constructor | dist-server/shared/systems/AISystem.js:16 | a facing component with the given direction |
| AiRoutine.DuelPhase | dist-server/shared/systems/AISystem.js:23-65 | the components become the duel step's and the cast made is the duel step's |
| AiRoutine.ChoosePhase | dist-server/shared/systems/AISystem.js:104-131 | implements the intended start check (see Findings): the ai component becomes the destination choice with the check on every far-away frame |
| AiRoutine.SteerPhase | dist-server/shared/systems/AISystem.js:146-198 | the ai and input components become the steering step's |
| AiRoutine.FollowPhase | dist-server/shared/systems/AISystem.js:133-204 | the ai and input components become the route-following step's |
| AiRoutine.ExecutePhase | dist-server/shared/systems/AISystem.js:132-214 | the components become the execution step's |
| AiRoutine.StepEntity | dist-server/shared/systems/AISystem.js:15-215 | implements the intended behaviour (see Findings): one agent's components and cast become one frame of the routine with the corrected start check |
| AiRoutine.DailyPhase | dist-server/shared/systems/AISystem.js:66-214 | the components become steps 1 to 3 of the routine, and no cast is made |
| AiRoutine.Routine.constructor | dist-server/shared/systems/AISystem.js:11 | the frame counter starts at 0 |
| AiRoutine.Routine.Run | dist-server/shared/systems/AISystem.js:12-216 | implements the intended behaviour (see Findings): the frame counter grows by one and every agent takes one frame of the routine with the corrected start check, its cast reported |
| SpawnManager.SpawnedSpec | src/server/managers/SpawnManager.ts:141-208 | seat id numericId−1 (0 without one): the body spawns at its bed, else at (x, y); the class seat is the map's, else the computed fallback; the eat seat the map's; sleep spot and home are the spawn point; the player state sits there with the entity's id, house defaulting to ignis |
| SpawnManager.ClassFallbackMatchesMap | src/server/managers/SpawnManager.ts:154-161 | for seat ids 0..23 the fallback class seat is the seat the map patch generates |
| SpawnManager.ClassFallbackRepeats | src/server/managers/SpawnManager.ts:155-157 | the fallback repeats every 24 seat ids |
| SpawnManager.ClassFallbackOfMinusOne | src/server/managers/SpawnManager.ts:143-161 | numericId 0 gives seat id −1, whose fallback uses JavaScript's negative remainders: (1440 − 96 + 16 − 32, 1312 − 64 + 40) |
| SpawnManager.PopulateKeys | src/server/managers/SpawnManager.ts:196-207 | after spawning, the entity and player maps hold exactly the old keys and the spawned ids |
| SpawnManager.PopulateLatest | src/server/managers/SpawnManager.ts:196-207 | the last spawn with an id decides its entity and player state |
| SpawnManager.PopulateOthers | src/server/managers/SpawnManager.ts:196-207 | an id no spawn uses keeps its entry, or its absence |
| SpawnManager.StudentAt | src/server/managers/SpawnManager.ts:69-85 | student i of house h is student_<house>_<i> with numericId 8h+i, bed row x = dorm.x + 64(i−1) − 224, the house's skin and a capitalised name |
| SpawnManager.StudentStep | src/server/managers/SpawnManager.ts:74-85 | each loop step adds exactly that student to both maps |
| SpawnManager.StudentIdParts | src/server/managers/SpawnManager.ts:75 | a student id spells its house and its slot digit |
| SpawnManager.StudentIdsDistinct | src/server/managers/SpawnManager.ts:63-85 | the 24 student ids are pairwise distinct |
| SpawnManager.StudentBedMatchesMap | src/server/managers/SpawnManager.ts:81-82 | a student's fallback spawn point is the bed the map patch generates for it |
| SpawnManager.SpawnEchoesSpec | src/server/managers/SpawnManager.ts:62-89 | after spawnEchoes student k exists in both maps with numericId k+1, its body at bed k (or its row position), its house the k div 8-th |
| SpawnManager.NpcSpawns | src/server/managers/SpawnManager.ts:96-101 | one teacher spawn per NPC, in order |
| SpawnManager.LegacyRoster | src/server/managers/SpawnManager.ts:118-129 | the first n hardcoded teachers, in order |
| SpawnManager.PlacedStays | src/server/managers/SpawnManager.ts:104-137 | a teacher is idle with no routine spots and its home at the given position |
| SpawnManager.TeacherSpawnsSpec | src/server/managers/SpawnManager.ts:91-139 | teachers are ignis, have no numericId; with NPCs they are teacher_<npc id> at the NPC's position, without them the five legacy teachers teacher_legacy_<i> |
| SpawnManager.TeachersSpec | src/server/managers/SpawnManager.ts:96-138 | after spawning, each teacher exists in both maps, idle, without routine spots, home at its position, house ignis |
| SpawnManager.TeacherSpawnsAtBedZero | src/server/managers/SpawnManager.ts:143-165 | a teacher has seat id 0, so when bed 0 exists its body and player state are placed at student 0's bed while its home is its own position |
| SpawnManager.EchoKeysMembers | src/server/managers/SpawnManager.ts:34-39 | the collected keys are exactly the listed keys starting with "echo_" |
| SpawnManager.FirstsMembers | src/server/managers/SpawnManager.ts:44-45 | the keys taken are exactly the first n |
| SpawnManager.KeepMembers | src/server/managers/SpawnManager.ts:53-56 | deleting keeps exactly the keys not deleted |
| SpawnManager.EvictedAreEchoes | src/server/managers/SpawnManager.ts:41-58 | only echo keys are ever removed |
| SpawnManager.EchoKeysSnoc | src/server/managers/SpawnManager.ts:35-39 | the collection loop appends a key exactly when it is an echo key |
| SpawnManager.KeepSnoc | src/server/managers/SpawnManager.ts:53-56 | deleting commutes with appending a key |
| SpawnManager.EchoKeysOfKeep | src/server/managers/SpawnManager.ts:34-58 | the echo keys left are the old echo keys minus those deleted |
| SpawnManager.FirstsSplit | src/server/managers/SpawnManager.ts:44-45 | of distinct keys, the first m are taken and the rest are not |
| SpawnManager.KeepDropsPrefix | src/server/managers/SpawnManager.ts:44-58 | deleting exactly a prefix leaves the suffix |
| SpawnManager.EchoKeysDistinct | src/server/managers/SpawnManager.ts:35 | map keys are distinct, so the echo keys are |
| SpawnManager.EvictionKeepsNewest | src/server/managers/SpawnManager.ts:33-60 | with n ≥ 50 echoes the first n−49 in map order go and exactly the newest 49 stay; with fewer nothing changes |
| SpawnManager.EvictKeepsListing | src/server/managers/SpawnManager.ts:53-56 | the key order still lists the player map after eviction |
| SpawnManager.KeepDistinct | src/server/managers/SpawnManager.ts:53-56 | deleting keeps the keys distinct |
| SpawnManager.ConvertedSpec | src/server/managers/SpawnManager.ts:210-256 | after the echo limit: the entity gets an idle AI at its position with the drawn house and released input; without a player state it is only dropped from the entity map; with one it is re-keyed to echo_<dbId>_<now>, its state cloned as "Echo of <name>" with the new id and house, the old keys gone, other keys untouched |
| SpawnManager.EchoIdIsEcho | src/server/managers/SpawnManager.ts:216 | an echo id starts with "echo_", so the next eviction counts it |
| SpawnManager.SpawnManager.constructor | src/server/managers/SpawnManager.ts:15-26 | the given maps and empty seat tables |
| SpawnManager.SpawnManager.LoadSeats | src/server/managers/SpawnManager.ts:28-31 | the seat tables become those parsed from the map; entities and players unchanged |
| SpawnManager.SpawnManager.EnforceEchoLimit | src/server/managers/SpawnManager.ts:33-60 | entities and players lose exactly the evicted echo keys |
| SpawnManager.SpawnManager.CreateEchoEntity | src/server/managers/SpawnManager.ts:141-208 | sets exactly the id's entity and player state to the spawned ones |
| SpawnManager.SpawnManager.SpawnEchoes | src/server/managers/SpawnManager.ts:62-89 | the state becomes the 24 students spawned in order |
| SpawnManager.SpawnManager.SpawnHouse | src/server/managers/SpawnManager.ts:69-86 | one house's loop spawns its 8 students and advances the id counter by 8 |
| SpawnManager.SpawnManager.SpawnStatic | src/server/managers/SpawnManager.ts:96-138 | the state becomes the teachers spawned in order, each made static |
| SpawnManager.SpawnManager.SpawnFromMap | src/server/managers/SpawnManager.ts:91-115 | the NPCs of the map are spawned as teachers, or the legacy teachers when there are none |
| SpawnManager.SpawnManager.ConvertToEcho | src/server/managers/SpawnManager.ts:210-256 | the state and the echo entity are the conversion's |
| Chat.CleanText | src/server/managers/ChatManager.ts:19 | `text.slice(0, 100)`: a prefix of the text, the whole text when it fits, exactly 100 characters otherwise |
| Chat.Posted | src/server/managers/ChatManager.ts:26-34 | the message is appended last; a history below 50 only grows, a longer one loses just its oldest entry, so a history within the bound stays within it |
| Chat.FullHistoryDropsOldest | src/server/managers/ChatManager.ts:32-34 | on a full history the oldest message goes and the others move up one place |
| Chat.ChatRoom.constructor | src/server/managers/ChatManager.ts:8-10 | a room with the given usernames, no messages and nothing broadcast |
| Chat.ChatRoom.HandleChat | src/server/managers/ChatManager.ts:12-40 | an unknown player or empty text changes nothing; otherwise the player's username with the cut text and the time is posted to the bounded history and broadcast once; a bounded history stays bounded |
| Chat.ChatRoom.BroadcastSystemMessage | src/server/managers/ChatManager.ts:42-50 | the message is appended and broadcast, with no trimming of the history |
| Chat.AnnouncementExceedsBound | src/server/managers/ChatManager.ts:32-48 | on a full history a system message pushes it past 50 entries, where a chat message keeps it at 50 |
| Prestige.HouseBySkin | src/server/systems/PrestigeSystem.ts:51-56 | a skin containing "red" is ignis, else one containing "blue" is axiom, else vesper |
| Prestige.HouseOf | src/server/systems/PrestigeSystem.ts:33-34 | the AI's house when set, else the skin's house; never empty, so the `!house` exit is never taken |
| Prestige.Credit | src/server/systems/PrestigeSystem.ts:44-46 | only the named house's total changes, by delta, and an unknown house changes none |
| Prestige.Reduction | src/server/systems/PrestigeSystem.ts:37 | `Math.min(amount, personalPrestige)` |
| Prestige.RemoveSpec | src/server/systems/PrestigeSystem.ts:28-49 | a missing player state or entity, or a reduction ≤ 0, changes nothing; otherwise the balance and the player's house total drop by min(amount, balance), a non-negative balance stays non-negative, other players and houses are untouched |
| Prestige.RemoveKeepsBalancesNonNegative | src/server/systems/PrestigeSystem.ts:36-41 | the anti-sabotage rule: no balance is driven below zero |
| Prestige.RemoveMovesSum | src/server/systems/PrestigeSystem.ts:41-46 | the house totals drop by exactly what the player's balance drops |
| Prestige.RemoveSteps | src/server/systems/PrestigeSystem.ts:29-46 | the statement-by-statement updates compute the specified removal |
| Prestige.PrestigeSystem.constructor | src/server/systems/PrestigeSystem.ts:7-9 | the room's players, houses and totals |
| Prestige.PrestigeSystem.AddPrestige | src/server/systems/PrestigeSystem.ts:14-22 | adding is switched off: nothing changes |
| Prestige.PrestigeSystem.RemovePrestige | src/server/systems/PrestigeSystem.ts:28-49 | the room's state becomes the specified removal |
| PrestigeDist.AddSpec | dist-server/server/systems/PrestigeSystem.js:11-29 | a missing player state or entity changes nothing; otherwise the balance and the player's house total grow by amount, all else untouched |
| PrestigeDist.AddMovesSum | dist-server/server/systems/PrestigeSystem.js:19-27 | the house totals grow by exactly what the balance grows |
| PrestigeDist.AddThenRemove | dist-server/server/systems/PrestigeSystem.js:11-56 | removing what was just added, from a non-negative balance, restores the state |
| PrestigeDist.PrestigeSystem.constructor | dist-server/server/systems/PrestigeSystem.js:5-7 | the room's players, houses and totals |
| PrestigeDist.PrestigeSystem.AddPrestige | dist-server/server/systems/PrestigeSystem.js:11-29 | the state becomes the specified addition |
| PrestigeDist.PrestigeSystem.RemovePrestige | dist-server/server/systems/PrestigeSystem.js:34-56 | the state becomes the specified removal, the same as the client build's |
| ItemSystem.SpawnedCard | src/server/systems/ItemSystem.ts:26-55 | a spawned card has the rolled id, type "card", one of the registry's card ids, and lies within ±200 px of one of the four spawn locations |
| ItemSystem.SetGrowsByOne | src/server/systems/ItemSystem.ts:53 | setting one key grows the item map by at most one |
| ItemSystem.ItemSystem.constructor | src/server/systems/ItemSystem.ts:6-12 | the spawn timer starts at 0 over the room's state |
| ItemSystem.ItemSystem.SpawnRandomCard | src/server/systems/ItemSystem.ts:26-55 | exactly the rolled card is set in the item map, nothing else changes |
| ItemSystem.ItemSystem.Update | src/server/systems/ItemSystem.ts:14-24 | the timer accumulates dt; past 60000 it resets to 0 and one card spawns only while fewer than 10 items exist, so a map within 10 items stays within it |
| ItemSystem.ItemSystem.TryCollectItem | src/server/systems/ItemSystem.ts:57-83 | without the item, the player, the entity or its body, or at distance ≥ 60, nothing changes; within range the item is deleted and a new card joins the album while an owned one earns a prestige-5 award instead; albums never gain a duplicate |
| ItemSystemDist.LegacyNumber | dist-server/server/systems/ItemSystem.js:43-48 | a key not starting with "card_" keeps dataId 0 |
| ItemSystemDist.LegacyNumberOfCard | dist-server/server/systems/ItemSystem.js:44-47 | "card_n" gives dataId n |
| ItemSystemDist.SpawnedItem | dist-server/server/systems/ItemSystem.js:22-51 | the spawned item has the rolled id, the drawn registry key, the lower-cased registry type and the legacy card number |
| ItemSystemDist.FindStack | dist-server/server/systems/ItemSystem.js:70 | `inventory.find`: the first stack of the item, or none exactly when no stack holds it |
| ItemSystemDist.QtyAppend | dist-server/server/systems/ItemSystem.js:76-81 | appending a stack adds its quantity to its item's total |
| ItemSystemDist.QtyBump | dist-server/server/systems/ItemSystem.js:71-73 | bumping a stack adds one to its item's total only |
| ItemSystemDist.Stow | dist-server/server/systems/ItemSystem.js:66-81 | the picked-up item's quantity grows by exactly one and every other item's is unchanged; a stackable item with a stack keeps the list length, otherwise a new stack of 1 is appended |
| ItemSystemDist.ItemSystemDist.constructor | dist-server/server/systems/ItemSystem.js:8-11 | the spawn timer starts at 0 over the room's state |
| ItemSystemDist.ItemSystemDist.SpawnRandomItem | dist-server/server/systems/ItemSystem.js:22-51 | exactly the rolled item is set in the item map |
| ItemSystemDist.ItemSystemDist.Update | dist-server/server/systems/ItemSystem.js:12-21 | the timer accumulates dt; past 30000 it resets and one item spawns only while fewer than 20 items exist, so a map within 20 stays within it |
| ItemSystemDist.ItemSystemDist.TryCollectItem | dist-server/server/systems/ItemSystem.js:52-97 | out of reach nothing changes; in reach the item is deleted; an unknown registry key gives nothing; otherwise the item is stowed, a card with dataId > 0 joins the album or, if owned, earns a prestige-5 award; albums never gain a duplicate |
| Combat.FirstHit | src/server/systems/CombatSystem.ts:125-141 | the first player, in the players' order from `k`, whom the projectile hits, or -1 exactly when it hits none from `k` on; a found player is hit and every earlier one is not |
| Combat.LosersOf | src/server/systems/CombatSystem.ts:167-182 | result 1 removes the second projectile, 2 the first and anything else (the tie) both; never nothing and never a third id |
| Combat.LosersByType | src/server/systems/CombatSystem.ts:162-182 | the spell type that beats the other keeps its projectile and removes the other; equal types remove both |
| Combat.RemovedByAppend | src/server/systems/CombatSystem.ts:148-181 | resolving one more clash adds exactly its losers to the handled set |
| Combat.Extend | src/server/systems/CombatSystem.ts:150-161 | a clash found later in the loops' order between two projectiles not yet handled keeps the resolved clashes consistent |
| Combat.RemovedByCovers | src/server/systems/CombatSystem.ts:148-181 | every resolved clash's losers stay in the handled set |
| Combat.ConsistentOrdered | src/server/systems/CombatSystem.ts:150-161 | consistent resolved clashes are clashing pairs in range, in strictly increasing loop order |
| Combat.ConsistentApart | src/server/systems/CombatSystem.ts:155 | no projectile removed by one resolved clash takes part in a later one |
| Combat.Types | src/server/systems/CombatSystem.ts:162-163 | one spell type per projectile of the snapshot |
| Combat.TypesOutcome | src/server/systems/CombatSystem.ts:162-165 | the result stored for a pair is `resolveRPS` of its two projectiles' spell types |
| Combat.VisitGrows | src/server/systems/CombatSystem.ts:155-183 | one visit of the inner loop only adds to the handled set, and after it a clashing pair has lost at least one of its projectiles |
| Combat.VisitKeeps | src/server/systems/CombatSystem.ts:155-183 | one visit keeps the resolved clashes consistent and all of them before the next pair |
| Combat.RowMonotone | src/server/systems/CombatSystem.ts:151-184 | the inner loop only adds to the handled set |
| Combat.RowGrows | src/server/systems/CombatSystem.ts:151-184 | the inner loop keeps the resolved clashes consistent, all in rows up to its own |
| Combat.RowStep | src/server/systems/CombatSystem.ts:151 | the inner loop from `j` is the visit of `j` followed by the loop from `j + 1` |
| Combat.RowUpToRest | src/server/systems/CombatSystem.ts:151 | running the inner loop up to `j` and then on from `j` is the whole inner loop |
| Combat.RowCovers | src/server/systems/CombatSystem.ts:151-184 | after the inner loop, every projectile from `j` on that clashes with the row's projectile has lost one of the two |
| Combat.CoveredNext | src/server/systems/CombatSystem.ts:150-185 | a row that settles its own clashes, while keeping the earlier removals, extends the settled prefix by one row |
| Combat.RowsBelowBefore | src/server/systems/CombatSystem.ts:150-151 | clashes in earlier rows come before any pair of a later row |
| Combat.RowsConsistent | src/server/systems/CombatSystem.ts:150-185 | the outer loop keeps the resolved clashes consistent |
| Combat.RowKeeps | src/server/systems/CombatSystem.ts:151-184 | one row keeps the resolved clashes consistent and in rows up to its own |
| Combat.RowsCover | src/server/systems/CombatSystem.ts:150-185 | after the outer loop every clashing pair has lost at least one projectile |
| Combat.CoveredSame | src/server/systems/CombatSystem.ts:148 | whether a clash is settled depends only on the handled set |
| Combat.RowSettles | src/server/systems/CombatSystem.ts:151-184 | a row settles all clashes of its own projectile |
| Combat.RowScored | src/server/systems/CombatSystem.ts:162-182 | the inner loop records for every pair the `resolveRPS` result of its spell types |
| Combat.RowsScored | src/server/systems/CombatSystem.ts:150-185 | the outer loop records for every pair the `resolveRPS` result of its spell types |
| Combat.ClashesSpec | src/server/systems/CombatSystem.ts:146-186 | one pass resolves only clashing pairs (different casters, under 20 px apart), in loop order, never twice a removed projectile, each by its spell types' rock-paper-scissors, and every clashing pair of the snapshot loses at least one projectile |
| Combat.CombatSystem.constructor | src/server/systems/CombatSystem.ts:17-21 | the room's projectiles and players, nothing hit yet |
| Combat.CombatSystem.CheckPlayerCollision | src/server/systems/CombatSystem.ts:121-144 | a hit exactly when some player other than the caster is within 33 px (squared distance under 33²); then the projectile is deleted and the first such player is recorded as hit, once; otherwise nothing changes; players never change |
| Combat.CombatSystem.ClashPair | src/server/systems/CombatSystem.ts:152-183 | the inner loop's body: the pair is resolved as `Visit` says, the handled set is the resolved clashes' losers and exactly those are deleted |
| Combat.CombatSystem.ClashRow | src/server/systems/CombatSystem.ts:151-184 | the inner loop for one row: resolves what `Row` says and deletes exactly the handled projectiles |
| Combat.CombatSystem.ResolveClash | src/server/systems/CombatSystem.ts:165-182 | deletes exactly the losers `LosersOf` names for the `resolveRPS` result |
| Combat.CombatSystem.CheckProjectileClash | src/server/systems/CombatSystem.ts:146-186 | the pass resolves `Clashes` of the snapshot, deletes exactly their losers and nothing else, and after it no clashing pair of the snapshot is still both present |
| SpellSystem.Base | dist-server/server/systems/SpellSystem.js:78-86 | the base name `getBase` picks is always a key of `CONFIG.RPS_MAP` |
| SpellSystem.BaseSpec | dist-server/server/systems/SpellSystem.js:78-86 | "circle" wins whenever the id contains it, then "square", then "triangle", and an id containing none of them counts as "circle" (each an if-and-only-if) |
| SpellSystem.TypeOfSpec | dist-server/server/systems/SpellSystem.js:87-88 | every spell maps to rock, paper or scissors, a key of `RPS_WINNER`; rock exactly for the circle base |
| SpellSystem.BaseAgreesWithRegistry | dist-server/server/systems/SpellSystem.js:78-86 | the base agrees with the shared spell registry's first matching entry, and an id the registry does not know is treated as a circle |
| SpellSystem.ResolveRpsSpec | dist-server/server/systems/SpellSystem.js:76-101 | `resolveRPS` only adds, and at most the two ids; equal types mark both, otherwise exactly one: the loser to `RPS_WINNER` |
| SpellSystem.HitSpec | dist-server/server/systems/SpellSystem.js:102-128 | a hit without both players present changes nothing; otherwise the attacker's score goes up by one, and on reaching 2 both scores reset, both AIs go idle without a target and the attacker is awarded 20 prestige; no one else and no projectile changes |
| SpellSystem.HitKeepsScoresBelowWin | dist-server/server/systems/SpellSystem.js:107-113 | duel scores stay between 0 and 1 between hits |
| SpellSystem.TwoHitsWin | dist-server/server/systems/SpellSystem.js:107-125 | two hits from a score of 0 win the duel: one award of 20 and both scores back to 0 |
| SpellSystem.SweepStep | dist-server/server/systems/SpellSystem.js:23-26 | the first walk skips entries already marked or deleted and otherwise handles one entry, then the rest |
| SpellSystem.SweepKeeps | dist-server/server/systems/SpellSystem.js:23-56 | the first walk deletes no projectile, keeps every creation time and only adds marks |
| SpellSystem.SweepMoves | dist-server/server/systems/SpellSystem.js:27-52 | the first walk moves each walked projectile once by `velocity * dt / 1000`, hit or not, and leaves the others as they were |
| SpellSystem.SweepMarksExpired | dist-server/server/systems/SpellSystem.js:54-55 | every walked projectile older than 2000 ms is marked |
| SpellSystem.RowMarksStep | dist-server/server/systems/SpellSystem.js:62-70 | the inner loop from `j` is the pair `(i, j)`, resolved when `j` is unmarked and within 30 px, followed by the loop from `j + 1` |
| SpellSystem.RowMarksNear | dist-server/server/systems/SpellSystem.js:62-70 | the inner loop only adds marks, each either the row's own projectile or one within 30 px of it |
| SpellSystem.RowMarksNothingAlone | dist-server/server/systems/SpellSystem.js:66-69 | a row whose projectile is near no later one marks nothing |
| SpellSystem.RowLeaderNeedsPartner | dist-server/server/systems/SpellSystem.js:62-70 | a row marks its own projectile only if some later projectile is within 30 px |
| SpellSystem.ClashMarksGrow | dist-server/server/systems/SpellSystem.js:58-71 | the second walk only adds marks |
| SpellSystem.TickRemovesExpired | dist-server/server/systems/SpellSystem.js:15-75 | a tick deletes projectiles and adds none, and every walked projectile older than 2000 ms is gone afterwards |
| SpellSystem.TickMovesSurvivors | dist-server/server/systems/SpellSystem.js:23-74 | when the snapshot lists every projectile once, each projectile that survives the tick has moved exactly once by its velocity |
| SpellSystem.SpellSystem.constructor | dist-server/server/systems/SpellSystem.js:10-14 | a system over the given room state |
| SpellSystem.SpellSystem.HandlePlayerHit | dist-server/server/systems/SpellSystem.js:102-128 | the new room state is `Hit` of the old (see HitSpec) |
| SpellSystem.SpellSystem.StopAiOf | dist-server/server/systems/SpellSystem.js:115-121 | an entity with an AI goes idle without a target; nothing else changes |
| SpellSystem.SpellSystem.SweepPhase | dist-server/server/systems/SpellSystem.js:23-56 | the first walk's new state and marks are `Sweep` of the old state |
| SpellSystem.SpellSystem.SweepEntry | dist-server/server/systems/SpellSystem.js:24-55 | one entry's move, hit and age check, as `SweepOne` |
| SpellSystem.SpellSystem.ClashRow | dist-server/server/systems/SpellSystem.js:62-70 | the inner loop's marks are `RowMarks` of the state, which it does not change |
| SpellSystem.SpellSystem.ClashPair | dist-server/server/systems/SpellSystem.js:63-69 | an unmarked partner within 30 px (squared distance under 900) is resolved by `resolveRPS`; otherwise the marks stay |
| SpellSystem.SpellSystem.ClashPhase | dist-server/server/systems/SpellSystem.js:58-71 | the second walk's marks are `ClashMarks` of the state, which it does not change |
| SpellSystem.SpellSystem.Update | dist-server/server/systems/SpellSystem.js:15-75 | the new state is `Tick` of the old: both walks, then the marked projectiles deleted |
| DuelSystem.Zoned | dist-server/server/systems/DuelSystem.js:20-37 | the duel flag becomes whether the body is in the zone; a change of flag resets the score to 0, no change leaves the player as it was; house and position never change |
| DuelSystem.PickChosen | dist-server/server/systems/DuelSystem.js:44-58 | the scan keeps the first eligible player at the smallest distance seen so far |
| DuelSystem.TargetSpec | dist-server/server/systems/DuelSystem.js:40-58 | no target exactly when no listed player is eligible; otherwise the target is another player in a duel, of another house, no farther than any eligible player and strictly nearer than every eligible player listed before it |
| DuelSystem.TargetNearest | dist-server/server/systems/DuelSystem.js:44-58 | whenever some player is eligible a target is found, and it is at least as near as that player |
| DuelSystem.Assign | dist-server/server/systems/DuelSystem.js:40-64 | only the chooser's entity can change; players never do |
| DuelSystem.AssignSpec | dist-server/server/systems/DuelSystem.js:40-64 | with no target (or the empty, falsy id) nothing changes; otherwise the AI gets the target, state "duel" and timer 0, and the target is an eligible rival |
| DuelSystem.Step | dist-server/server/systems/DuelSystem.js:11-38 | one entity's check changes at most that entity and its player, never a body, and never adds or drops a key |
| DuelSystem.SweepFrame | dist-server/server/systems/DuelSystem.js:11-38 | the tick never moves a body or adds a key, and an entity it does not visit keeps its state |
| DuelSystem.SweepSettles | dist-server/server/systems/DuelSystem.js:11-38 | an entity with a body and player state ends with its duel flag set to "in the zone", its score reset when the flag changed, its AI idle when it left the duel, and unchanged when inside with no AI or already duelling |
| DuelSystem.UpdateInDuelIffInZone | dist-server/server/systems/DuelSystem.js:16-37 | after the tick, an entity with a body is in a duel exactly when it is strictly within the 300 px duel radius of the zone centre (2640, 1520) |
| DuelSystem.UpdateSkips | dist-server/server/systems/DuelSystem.js:13-19 | an entity without a body or without a player state is left as it was |
| DuelSystem.SkipsFrom | dist-server/server/systems/DuelSystem.js:13-19 | the same from any point of the walk on |
| DuelSystem.DuelSystem.constructor | dist-server/server/systems/DuelSystem.js:6-8 | a system over the given room state |
| DuelSystem.DuelSystem.NearestRival | dist-server/server/systems/DuelSystem.js:44-58 | the loop returns `Target` of the players (see TargetSpec) |
| DuelSystem.DuelSystem.AssignDuelTarget | dist-server/server/systems/DuelSystem.js:40-64 | the new state is `Assign` of the old (see AssignSpec) |
| DuelSystem.DuelSystem.CheckEntity | dist-server/server/systems/DuelSystem.js:12-37 | the new state is `Step` of the old for that entity |
| DuelSystem.DuelSystem.Update | dist-server/server/systems/DuelSystem.js:9-39 | the new state is `Sweep` of the old over the entities in order (see SweepSettles) |
| WorldRoom.AsWrittenAcceptsInherited | dist-server/server/WorldRoom.js:250-256 | the source as written: the name "toString", which is no spell, passes the cast gate at any time (see Findings) |
| WorldRoom.AcceptsSpec | dist-server/server/WorldRoom.js:250-256 | the intended gate (see Findings) accepts only registered spells; on those it agrees with the gate as written, and a name that is neither registered nor inherited is rejected by both |
| WorldRoom.ProjectileIdsDiffer | dist-server/server/WorldRoom.js:260 | `proj_<sessionId>_<now>` ids of one caster at different times differ |
| WorldRoom.CastSpec | dist-server/server/WorldRoom.js:246-273 | implements the intended gate (see Findings): a missing entity or body, an unregistered spell, or a cast less than `cooldown` ms after the caster's last accepted cast (0 when none) changes nothing, last-cast time included; an accepted cast sets the last-cast time to now and adds exactly one projectile `proj_<id>_<now>`, owned by the caster, at its body, with range 600 and creation time now, leaving every other projectile, entity, player, message and award as it was |
| WorldRoom.CastCooldown | dist-server/server/WorldRoom.js:253-257 | after an accepted cast, any further cast by the same caster within the next 500 ms (every spell's cooldown) changes nothing |
| WorldRoom.InsertByScore | dist-server/server/WorldRoom.js:133 | one insertion step adds exactly one entry |
| WorldRoom.SortByScore | dist-server/server/WorldRoom.js:133 | the sort keeps the number of entries |
| WorldRoom.CupWinnerSpec | dist-server/server/WorldRoom.js:127-135 | a house wins the cup exactly when its points strictly exceed both others'; "Tie" exactly when no house does |
| WorldRoom.RankingUnfolds | dist-server/server/WorldRoom.js:128-133 | the ranking is the stable insertion of AXIOM and then VESPER into the list holding IGNIS |
| WorldRoom.InsertIntoTwo | dist-server/server/WorldRoom.js:133 | inserting into a sorted two-entry list puts the new entry before the first strictly lower score, after equal ones |
| WorldRoom.CalendarSpec | dist-server/server/WorldRoom.js:121-147 | the month is always synced; at a new course the three totals reset to 0, the course is updated and exactly one HEADMASTER message is appended; otherwise only the month can change |
| WorldRoom.RewardsOfSpec | dist-server/server/WorldRoom.js:151-170 | every award is 5 points to a listed entity within 50 px of the place its hour's timetable names, and every such entity gets one |
| WorldRoom.RewardOncePerHour | dist-server/server/WorldRoom.js:149-150 | the hour is remembered, so a second tick in the same game hour hands out nothing more |
| WorldRoom.Sanitize | dist-server/server/WorldRoom.js:203-215 | the four directions are stored as booleans (`!!`); the analog direction is cleared exactly when the message's is falsy, and otherwise each component is `Number(...)` of the message's, or 0 where that is NaN |
| WorldRoom.ArrayToNumber | dist-server/server/WorldRoom.js:209-210 | `Number` of an array component: `[]` is 0, a lone `undefined` or `null` is 0, a lone number, string or array reads as that element alone, a lone boolean is NaN although the boolean itself is not, and two or more elements are NaN |
| WorldRoom.SanitizeArrayFields | dist-server/server/WorldRoom.js:207-211 | an analog direction `{x: [0.5], y: []}` is stored as (0.5, 0) |
| WorldRoom.SanitizeEncode | dist-server/server/WorldRoom.js:203-215 | sanitising the message of a clean input gives that input back |
| WorldRoom.SanitizeIdempotent | dist-server/server/WorldRoom.js:203-215 | sanitising is idempotent |
| WorldRoom.Move | dist-server/server/WorldRoom.js:200-220 | a client without an entity or without an input component changes nothing; otherwise only that entity's input changes, to the sanitised message |
| WorldRoom.HouseForSkin | dist-server/server/WorldRoom.js:278 | the house of a joining client is always one of the three: ignis for a skin containing "red", else axiom for "blue", else vesper |
| WorldRoom.FirstSlot | dist-server/server/WorldRoom.js:281-289 | the first listed AI student of the house that no `sess_` session holds, or none exactly when there is no such student |
| WorldRoom.InventoryOfSpec | dist-server/server/WorldRoom.js:328-334 | the hydrated inventory copies every database row in order: its item id and its count |
| WorldRoom.CardOfSpec | dist-server/server/WorldRoom.js:336-339 | the id `card_<n>` adds card `n` to the collection, and an id not starting with `card_` adds none |
| WorldRoom.Without | dist-server/server/WorldRoom.js:308 | deleting a key from the order keeps every other key, drops that one and repeats none |
| WorldRoom.RekeyLists | dist-server/server/WorldRoom.js:308-309 | re-keying the possessed entity keeps the order an exact listing of the entities' keys without repeats |
| WorldRoom.JoinKeepsValid | dist-server/server/WorldRoom.js:274-351 | a join keeps the room's entity order an exact listing of its keys |
| WorldRoom.JoinSpec | dist-server/server/WorldRoom.js:278-309 | with no free slot of the skin's house the client leaves and nothing changes; a join possesses the first free slot, which has a body, and re-keys it from the slot id to the session id, leaving every other entity as it was |
| WorldRoom.JoinPlayers | dist-server/server/WorldRoom.js:314-344 | after a join the slot id has no player state, and the session's state has the session id, the house of the slot and the stored prestige; every other player is kept |
| WorldRoom.WorldRoom.constructor | dist-server/server/WorldRoom.js:60-84 | a room with the given state and world start time |
| WorldRoom.WorldRoom.HandleCast | dist-server/server/WorldRoom.js:246-273 | implements the intended gate (see Findings): the new state is `Cast` of the old (see CastSpec) |
| WorldRoom.WorldRoom.Launch | dist-server/server/WorldRoom.js:259-271 | the projectile of an accepted cast: at the body, aimed along the unit aim at the spell's speed, or straight right at that speed when the aim is zero |
| WorldRoom.WorldRoom.RewardStudents | dist-server/server/WorldRoom.js:151-170 | appends exactly `RewardsOf` the entities in order (see RewardsOfSpec) and changes nothing else |
| WorldRoom.WorldRoom.Simulate | dist-server/server/WorldRoom.js:116-171 | one tick's room rules: the calendar of the current academic progress, then the hour's rewards |
| WorldRoom.WorldRoom.SyncCalendar | dist-server/server/WorldRoom.js:121-147 | the new state is `Calendar` of the old (see CalendarSpec) |
| WorldRoom.WorldRoom.HandleMove | dist-server/server/WorldRoom.js:200-220 | the new state is `Move` of the old |
| WorldRoom.WorldRoom.FindSlot | dist-server/server/WorldRoom.js:281-289 | the loop finds `FirstSlot` |
| WorldRoom.WorldRoom.Hydrate | dist-server/server/WorldRoom.js:328-341 | the loop builds the inventory and the card collection of the database rows |
| WorldRoom.WorldRoom.OnJoin | dist-server/server/WorldRoom.js:274-351 | the new state and whether the client stays are `Join` of the old (see JoinSpec, JoinPlayers) |
| UiManager.TimetableRows | src/client/UIManager.ts:238-248 | one row per schedule entry |
| UiManager.TimetableRowsSpec | src/client/UIManager.ts:238-248 | row `k` carries entry `k`'s start and end as attributes, its start as "HH:00", its name and location, and is not highlighted |
| UiManager.ActiveRule | src/client/UIManager.ts:263-265 | a row is active in `[start, end)` when start < end, and otherwise from start on or before end (wrapping past midnight) |
| UiManager.CycleLength | src/client/UIManager.ts:263-265 | an entry lasts between 1 and 24 hours, a full day when start equals end |
| UiManager.ActiveIsOnCycle | src/client/UIManager.ts:263-265 | on hours 0-23 a row is active exactly when the hour lies within the entry's length after its start, counted round the clock |
| UiManager.RenderedRowActive | src/client/UIManager.ts:240-265 | reading back the attributes a rendered row carries gives the entry's own start and end |
| UiManager.ScheduleEnds | dist-server/shared/Config.js:40-47 | the schedule has six entries, from "Charms Class" 8-10 to "Curfew" 22-8 |
| UiManager.ScheduleExamples | src/client/UIManager.ts:263-265 | Charms (8-10) is active at 9 and not at 23; Curfew (22-8) is active at 23 |
| UiManager.Highlighted | src/client/UIManager.ts:258-268 | one row out per row in |
| UiManager.HighlightedSpec | src/client/UIManager.ts:258-268 | every row keeps its content and is highlighted exactly when its parsed hours are active at the game hour |
| UiManager.HighlightedIdempotent | src/client/UIManager.ts:259 | highlighting twice at the same hour is highlighting once (the class is removed before it is set) |
| UiManager.RenderRows | src/client/UIManager.ts:238-248 | the loop builds `TimetableRows` |
| UiManager.HighlightRows | src/client/UIManager.ts:258-268 | the loop builds `Highlighted` |
| UiManager.AlbumSlots | src/client/UIManager.ts:279-305 | one album slot per card |
| UiManager.AlbumGrid | src/client/UIManager.ts:279-305 | the loop builds `AlbumSlots` |
| UiManager.AlbumSlotsSpec | src/client/UIManager.ts:280-288 | slot `k` is owned exactly when card `k`'s number after `_` parses and is among the owned ids; it shows the card's name when owned and "???" otherwise, and keeps the card's id |
| UiManager.AlbumByNumber | src/client/UIManager.ts:280-281 | when the cards are numbered 1, 2, … in order, slot `k` is owned exactly when `k + 1` is owned |
| UiManager.CounterSpec | src/client/UIManager.ts:307 | the counter reads "<owned count>/<card count>", and both numbers read back as those counts |
| UiManager.InventorySlots | src/client/UIManager.ts:182-204 | the first `n` slots of the grid |
| UiManager.InventorySlotsSpec | src/client/UIManager.ts:182-204 | slot `i` is filled exactly when the inventory has an `i`-th entry whose item the registry knows; then it shows that item with its lower-cased rarity and a quantity badge exactly when the quantity exceeds 1 |
| UiManager.InventoryPrefix | src/client/UIManager.ts:186 | the first `n` slots depend only on the first `n` inventory entries |
| UiManager.UIManager.constructor | src/client/UIManager.ts:167-308 | the overlay with the given elements (each present or missing) |
| UiManager.UIManager.RenderTimetable | src/client/UIManager.ts:233-249 | without `#schedule-body` nothing changes; otherwise its rows become `TimetableRows` of the schedule; nothing else changes |
| UiManager.UIManager.UpdateTimetable | src/client/UIManager.ts:251-269 | with the modal missing or hidden nothing changes; otherwise the clock reads "HH:00" and the rows are highlighted for the hour, each only where the element exists |
| UiManager.UIManager.ShowHour | src/client/UIManager.ts:254-255 | the clock, where present, reads the hour as "HH:00"; nothing else changes |
| UiManager.UIManager.RenderAlbum | src/client/UIManager.ts:271-308 | without `#album-grid` nothing changes; otherwise the grid becomes the album slots of all cards and the counter, where present, their count text |
| UiManager.UIManager.RenderInventory | src/client/UIManager.ts:167-205 | without `#inventory-grid` nothing changes; without a local player the grid is emptied; otherwise it holds the 20 slots of the player's inventory |
| UiScene.ClockFields | src/client/scenes/UIScene.ts:139-140 | on a non-negative count the clock shows the whole hours and the whole minutes into the hour (0-59), the seconds dropped |
| UiScene.TwoDigitsOf | src/client/scenes/UIScene.ts:141-142 | a field below 100 shows as exactly its two decimal digits, with a leading zero below 10 |
| UiScene.TwoDigitsPadding | src/client/scenes/UIScene.ts:141-142 | `padStart(2, '0')` gives at least two characters: the number's own text, preceded only by zeros |
| UiScene.ClockTextLayout | src/client/scenes/UIScene.ts:139-144 | below 100 hours the clock reads `HH:MM`, then the course and month lines |
| UiScene.TimeLayout | src/client/scenes/UIScene.ts:141-144 | the two padded fields and the colon are five characters in order |
| UiScene.Colon | src/client/scenes/UIScene.ts:144 | two two-character fields joined by ':' put the colon at position 2 |
| UiScene.FieldsBelowHundred | src/client/scenes/UIScene.ts:139-140 | below 360000 seconds both fields are below 100 |
| UiScene.ClockTextReadsBack | src/client/scenes/UIScene.ts:136-145 | parsing the clock text's first two and last two digits gives back the hours and minutes, and the rest is the course and month lines |
| UiScene.FieldsReadBack | src/client/scenes/UIScene.ts:144 | the two digit fields of such a text read back as the numbers that made them |
| UiScene.TwoDigitValue | src/client/scenes/UIScene.ts:141-142 | two decimal digits read back as the number below 100 that made them |
| UiScene.MaxDisplay | src/client/scenes/UIScene.ts:120 | the scale is the largest of the three scores and 100: at least each of them, and equal to one of them |
| UiScene.PillarHeightBounds | src/client/scenes/UIScene.ts:125 | a score between 0 and the scale fills between 0 and 40 px, all 40 exactly at the scale |
| UiScene.PillarHeightMonotone | src/client/scenes/UIScene.ts:125 | a higher score never has a lower pillar |
| UiScene.PointsBounds | src/client/scenes/UIScene.ts:119-134 | with non-negative scores every pillar is 0-40 px, and a leading score of 100 or more fills its pillar |
| UiScene.UpdatedPillarsSpec | src/client/scenes/UIScene.ts:119-134 | only the three house pillars that exist change, each labelled with its score's text, which reads back as the score; other pillars and keys stay |
| UiScene.Regroup | src/client/scenes/UIScene.ts:144 | the clock text's parts concatenate the same however grouped |
| UiScene.UiScene.constructor | src/client/scenes/UIScene.ts:101 | the scene with the given clock text and pillars |
| UiScene.UiScene.UpdateTime | src/client/scenes/UIScene.ts:136-145 | without a clock nothing changes; otherwise it shows `ClockText`; the pillars stay |
| UiScene.UiScene.UpdatePillar | src/client/scenes/UIScene.ts:122-129 | an existing pillar gets the height `val / maxDisplay * 40` and the label of `val`; a missing one is skipped |
| UiScene.UiScene.UpdatePoints | src/client/scenes/UIScene.ts:119-134 | the pillars become `UpdatedPillars` of the old ones (see UpdatedPillarsSpec); the clock stays |
| Strings.OccursContains | src/shared/items/SpellRegistry.ts:47 | `includes` finds every occurrence of the substring |
| Strings.ContainsIffOccurs | src/shared/items/SpellRegistry.ts:47 | `includes` holds exactly when the substring occurs at some position |
| Strings.MissingFirstChar | dist-server/server/WorldRoom.js:278 | a substring whose first character is absent from the text is not included |
| Strings.ContainsSelf | src/shared/items/SpellRegistry.ts:47 | every text includes itself and the empty text |
| Strings.Split | dist-server/server/WorldRoom.js:337 | `split` on one character gives at least one field, none containing the separator |
| Strings.JoinSplit | tools/sync_items.js:15-20 | joining the fields of a `split` with the separator gives the text back |
| Strings.SplitNone | src/client/UIManager.ts:280 | a text without the separator splits into just itself |
| Strings.SplitFirst | src/client/UIManager.ts:280 | the field before the first separator comes first, then the fields of the rest |
| Strings.SplitCount | tools/sync_items.js:20 | a text splits into one more field than it has separators |
| Strings.TrimStartSpec | tools/sync_items.js:14 | `trimStart` keeps a suffix, drops only white space, and leaves no leading white space |
| Strings.TrimEndSpec | tools/sync_items.js:14 | `trimEnd` keeps a prefix, drops only white space, and leaves no trailing white space |
| Strings.TrimIsSlice | tools/sync_items.js:14-26 | `trim` keeps a slice of the text with only white space around it, and the slice neither starts nor ends with white space |
| Strings.TrimStartAllSpace | tools/sync_items.js:14 | an all-white-space text trims to empty |
| Strings.TrimEmptyIffAllSpace | tools/sync_items.js:14 | a line trims to empty exactly when it is all white space, so the filter drops just the blank lines |
| Strings.NatToString | src/client/UIManager.ts:240 | `toString` of a non-negative integer is a non-empty run of decimal digits without a leading zero |
| Strings.DigitValue | src/client/UIManager.ts:260 | a digit's value is below the radix |
| Strings.DigitRun | src/client/UIManager.ts:260 | the leading digit run ends at the first non-digit |
| Strings.LeadingDigits | src/client/UIManager.ts:260 | no value exactly when the text does not start with a digit |
| Strings.DigitCharValue | src/client/UIManager.ts:243 | a printed digit reads back as itself |
| Strings.DigitsValueOfNat | src/client/UIManager.ts:240-260 | the printed digits of a number read back as that number |
| Strings.LeadingDigitsAll | src/client/UIManager.ts:260 | a text made of digits is read whole |
| Strings.LeadingDigitsOfNat | src/client/UIManager.ts:240-260 | the leading digits of a printed number are that number |
| Strings.DigitIsPlain | src/client/UIManager.ts:260 | a digit is neither white space, a sign nor a hex marker, so `parseInt` reads it as a digit |
| Strings.ParseIntOfNat | src/client/UIManager.ts:240-260 | `parseInt` of a printed non-negative integer gives it back |
| Strings.ParseIntOfNegative | src/client/UIManager.ts:260 | `parseInt` of "-" and a printed integer gives its negation (the "-1" default included) |
| Strings.ParseIntOfInt | dist-server/server/WorldRoom.js:337 | `parseInt` of any printed integer gives it back |
| Strings.PadStart | src/client/UIManager.ts:243-255 | `padStart` keeps the text at the end, pads only with the pad character, and reaches the width only when the text is shorter |
| Strings.LowerChar | src/client/UIManager.ts:191 | `toLowerCase` shifts A-Z to a-z and leaves every other character |
| Strings.Lower | src/client/UIManager.ts:191 | `toLowerCase` lower-cases each character in place (also used at line 285) |
| Strings.LexTotal | dist-server/shared/data/ItemRegistry.js:22 | the string order of `localeCompare` relates any two ids |
| Strings.LexTrans | dist-server/shared/data/ItemRegistry.js:22 | that order is transitive |
| Strings.LexAntisymmetric | dist-server/shared/data/ItemRegistry.js:22 | ids ordered both ways are equal |
| Seqs.FirstWhere | src/shared/MapParser.ts:52 | `find`/`findIndex`: the position of the first element passing the test, no earlier one passing, or the length when none does; `Tiled.FindLayerIndex` and `MapParser.FindProperty` are its instances |
| Seqs.Filter | src/shared/systems/InventorySystem.ts:18 | `filter` keeps only entries of the input that pass the test, and never more of them |
| Seqs.FilterIsSubsequence | src/shared/systems/InventorySystem.ts:18 | `filter` keeps the entries in their order |
| Seqs.SubsequenceOfTail | src/shared/systems/InventorySystem.ts:18 | a subsequence of the tail is a subsequence of the whole |
| Seqs.SubsequenceDropHead | src/shared/systems/InventorySystem.ts:18 | dropping the first entry of a subsequence leaves a subsequence |
| Seqs.FilterCounts | src/shared/systems/InventorySystem.ts:18 | every passing entry is kept as often as it occurs, every other one not at all |
| Seqs.FilterKeeps | src/shared/systems/InventorySystem.ts:18 | a passing entry is kept |
| Seqs.FilterAll | src/shared/systems/InventorySystem.ts:18 | when every entry passes, `filter` returns the input |
| Seqs.FilterTwice | src/shared/data/ItemRegistry.ts:18 | two filters in a row are one filter by both tests |
| Seqs.FilterIdempotent | src/shared/systems/InventorySystem.ts:18 | filtering twice by the same test is filtering once |
| Seqs.FilterExt | src/shared/systems/InventorySystem.ts:18 | tests that agree on the entries filter alike |
| Seqs.FilterAppend | src/shared/systems/InventorySystem.ts:18 | filtering a concatenation filters each part |
| Seqs.Insert | src/shared/data/ItemRegistry.ts:19 | an insertion step adds exactly the one entry |
| Seqs.Sort | src/shared/data/ItemRegistry.ts:19-23 | the sort is a permutation of its input |
| Seqs.InsertSorted | src/shared/data/ItemRegistry.ts:19-23 | inserting into a sorted list keeps it sorted, for a total preorder |
| Seqs.SortSorted | src/shared/data/ItemRegistry.ts:19-23 | the sort's output is sorted by a total preorder |

## Left out

- Clocks and randomness. `Date.now()` and `Math.random()` are not modelled: the clock arrives as a parameter `now`, and each random draw arrives as a parameter. This covers spawn scatter, the AI direction and timers, the echo's house, and the item rolls (`Roll`).
- Square roots and trigonometry. `Math.sqrt` comparisons are stated on squared distances. The cast's aim normalisation `v / Math.sqrt(vx² + vy²)` (dist-server/server/WorldRoom.js:266-268) is the parameter `unit`, and its length is not proved to be 1. Steering, the golden-angle spread and duel strafing of dist-server/shared/systems/AISystem.js reach `AiRoutine` as the precomputed `Sense`. Floating-point rounding is not modelled: positions are exact reals or integers.
- The physics engine. Rapier bodies, colliders, `castRay` and shape queries are not modelled. Body positions are given. The ray's answer reaches `SpellSystem` as the parameter `struck`. The body mirroring in src/server/systems/CombatSystem.ts:23-50 and the physics-to-state sync loop of dist-server/server/WorldRoom.js:182-196 are not modelled.
- src/shared/systems/CombatSystem.ts (melee) is not part of this model. Its only decision comes from a Rapier shape query, and its cooldown is in float seconds.
- Combat.CombatSystem.CheckPlayerCollision: the move step and `checkExpiration` of `update` (src/server/systems/CombatSystem.ts:52-93, 109-119) are not modelled. `checkExpiration` reads `p.startX` and `p.startY`, which projectiles do not have, so its range test compares against `NaN`.
- I/O. No file, image or JSON reading or writing is modelled: decoded pixel buffers and parsed Tiled maps are inputs and outputs. Console logging, broadcasts and client notifications are not modelled either; broadcasts and hits are recorded in plain fields. items.json and `CARD_REGISTRY` are not part of this model, and their contents are parameters.
- WorldRoom.Join: `PlayerService.initializeSession` is taken to succeed, and its answer is the parameter `db`. A database error, which `onJoin` catches before making the client leave, is not modelled. Authentication (`onAuth`), map loading in `onCreate`, `onLeave`, and the room's own chat and collect handlers are not modelled.
- WorldRoom.StringToNumber: it recognises only blank strings and optionally signed decimal integers. It maps "1.5", "1e3", "0x10" and "Infinity" to NaN, hence to 0 in `WorldRoom.Sanitize`, where JavaScript's `Number()` gives a number for each. The same holds for the text of a one-element array such as `["1.5"]`, which `WorldRoom.ToNumber` reads through this function.
- MapParser.GetLayer: it and the lookups built on it require `m.layers.Some?`. The same holds for `GetObjectsSpec`, `ParseSeats`, `ParseNpcs`, `ParseEntitiesSpec`, `SpawnManager.SpawnManager.LoadSeats` and `SpawnManager.SpawnManager.SpawnFromMap`. A map without `layers`, on which `map.layers.find` throws a `TypeError`, is therefore not modelled.
- MapParser.BuildNavGrid: Tiled object coordinates and sizes are integers here, though Tiled can store fractional ones. The guard that skips an object whose `x` is not a number (src/shared/MapParser.ts:118-120) is not modelled.
- AnalyzeGrid.SampleTile: every pixel has four channels, red, green, blue and alpha. On an image without alpha, `pixel[3]` raises in the source (scripts/analyze_grid.py:24-26); that case is not modelled.
- Chat.CleanText: it counts characters, where `slice(0, 100)` counts UTF-16 code units. Text outside the Basic Multilingual Plane can therefore be cut at a different place. `Strings` likewise works on characters, and its `toLowerCase` only maps A-Z.
- Pathfinding.Finder.FindPath: step costs are the integers 1000 and 1414 instead of 1 and 1.414. Among nodes with equal scores, the heap can therefore break ties differently and return a different path of the same length.
- Pathfinding.Finder.FindPath: it does not promise a shortest path, nor that a path is found whenever one exists. So the open-grid example of src/server/verify_npc_behavior.test.ts:93-116, the path (0,0) → (1,1) → (2,2), is not derived.
- SyncItems.Sync: the records form a map, which has no key order. The file the tool writes lists keys in the order `JSON.stringify` gives them: integer-like keys first, in ascending order (tools/sync_items.js:30). That order is not modelled.
- Heap.BinaryHeap.Remove: it and `RemoveAsWritten` require the key to be in the heap. The case `indexOf` = -1 is not modelled, and `findPath` never calls `remove`.
- PatchCollisions.PatchCollisions: it requires a positive map width. With width 0 the source computes `NaN` positions.
- FindDesks.FindDesks: it requires a positive Furniture layer width, for the same reason.
- PaintSchool.Painter.PaintRoom: it requires the room, its wall ring and the corridors (`PaintCorridor`, `AddDoor`) to lie inside the 100×100 grid. JavaScript's writes outside the array are not modelled. The build sequence of tools/paint_school.js:100-124 is not modelled as one method.
- StatsSystem.Run: it requires the entities to be distinct, as an ECS query lists each entity once.
- ItemSystem.ItemSystem.TryCollectItem: the card name looked up in `CARD_REGISTRY` for the notification is not modelled.
- SpawnManager: positions are integers, and `UpperChar` upper-cases only ASCII letters. The ECS world list is not modelled. The echo returned by `convertToEcho` is a value here, so aliasing between the returned object and the stored one is not modelled.
- UiManager: the DOM and its event wiring are not modelled. The details panel (`selectInventoryItem`) and `openCardLore` are not modelled either. `ITEM_REGISTRY[item.itemId]` is looked up among the registry's own keys only, so an inherited name such as "toString" is not modelled. The owned card ids and the schedule are parameters. A NaN number is `None`.
- UiScene.ClockTextLayout: the layout and read-back lemmas (also `ClockTextReadsBack`) are stated for fewer than 100 hours, where each field has exactly two digits. `totalSeconds` is an integer, and `repositionPrestigeUI` and the Phaser object setup are not modelled.
- The compiled duplicates dist-server/shared/systems/Pathfinding.js, dist-server/shared/MapParser.js and dist-server/server/managers/SpawnManager.js are not modelled separately: they repeat the TypeScript files modelled above.
- `localeCompare` in dist-server/shared/data/ItemRegistry.js:22 is modelled as plain code-unit order.

## Findings

| source | as written | input that shows it | evidently intended | confidence | as-written member | corrected member |
|---|---|---|---|---|---|---|
| src/shared/systems/Pathfinding.ts:146-157 | `remove` pops the last entry and then compares the target's index with the new length minus one | removing the only entry of `[a]` leaves `[a]`; removing `a` from `[a, b]` leaves `[a]`, so `b` is lost | compare with the old last index, so that exactly the target entry goes and a heap stays a heap | not executed | Heap.BinaryHeap.RemoveAsWritten, Heap.RemoveWriteBackSlips | Heap.BinaryHeap.Remove |
| dist-server/shared/systems/AISystem.js:108-122 | the staggered-start test `ai.timer > startDelay` sits in the target-changed branch, right after the timer is reset to 0 | any student with a numeric id ≥ 0 (every string id reads as 0) that is idle and far from its destination: it never enters `routine`, frame after frame | test the start delay on every frame the agent is far from its stored destination | not executed | AiRoutine.ChooseAsWrittenNoStart, AiRoutine.AsWrittenNeverStarts, AiRoutine.AsWrittenNeverStartsOver | AiRoutine.ChoosePhase, AiRoutine.StaggeredStart, AiRoutine.ChooseVersionsAgree |
| dist-server/server/WorldRoom.js:250-256 | `SPELL_REGISTRY[spellId]` also finds members inherited from `Object.prototype`, whose `cooldown` is `undefined` | a cast with `spellId` "toString": the lookup is truthy, `now - lastCast < undefined` is false, and a projectile of no spell is spawned, at any rate | accept only the registry's own spells | not executed | WorldRoom.AsWrittenAcceptsInherited | WorldRoom.AcceptsSpec, WorldRoom.CastSpec, WorldRoom.WorldRoom.HandleCast |
