# Rooftop Cat — a Dafny model of the runner's simulation core

Rooftop Cat is a browser endless runner. A cat runs along a city rooftop deck
and jumps the gaps between buildings. It ducks under pylons and water-tower
gates, and it clears chimneys, vents, tanks and sagging wires. This project
models the part of the game that decides things and leaves out the part that
paints them:

- the spawner and the obstacle hitboxes (`obstacles.js`);
- the per-frame `update`, the run state machine and the input handlers
  (`RooftopCat.jsx`);
- the under-deck spans between gaps, their per-gap themes, the tile phase and
  the tile-cache flags (`drawDeck.js`);
- the small numeric helpers (`utils.js`);
- the rooftop block list that is split at seams, culled and refilled
  (`roofBlocks.js`);
- the seeded generator (`seededRng.js`);
- the scenery generators (`scenery.js`);
- the particle buffers (`effects.js`);
- the weather set-up and the lightning timer (`weather.js`).

Conventions used throughout:

- **Random draws.** Every `Math.random()` call is an explicit draw: a `Num.Unit`
  (a real in [0,1)), or the value of a `Num.Stream` (a function from draw
  index to `Unit`) at a cursor. Generators return `Num.Made(value, k)`, where
  `k` is the cursor after the draws they used, so a result is a pure function
  of its inputs and its draws.
- **Numbers.** JS numbers are `real`. `Math.round` is `Num.Round` (the floor
  of x + 0.5). `%` on numbers is `Num.JsRem`, truncated towards zero like
  JavaScript's. The 32-bit hashes (`Math.imul`, `^`, `<<`, `>>>`) are `bv32`.
- **State.** Game state is immutable. `GameStep.Update` is the gameplay part of
  one playing frame. `GameInput` holds the handlers that move the game between
  `Ready`, `Playing`, `Paused` and `Dead`.
- **Module layout.** There is one module per source file: `Num` (shared
  numeric helpers), `Utils`, `SeededRng`, `Obstacles`, `Deck`, `RoofBlocks`,
  `Scenery`, `Effects` and `Weather`. `GameStep` and `GameInput` together
  cover `RooftopCat.jsx`.

## Model

| member | source | states |
|---|---|---|
| SeededRng.HashSeed | seededRng.js:4-5 | the loop over the seed's code units computes 32-bit FNV-1a: offset basis 2166136261, prime 16777619, multiplication wrapping mod 2^32 |
| SeededRng.Fnv1aKnownAnswers | seededRng.js:4-5 | the hash agrees with the published 32-bit FNV-1a test vectors for "", "a" and "foobar" |
| SeededRng.InitialState | seededRng.js:6 | the generator state is never zero: it is the seed hash, or 123456789 when the hash is zero |
| SeededRng.SeedOrDefault | seededRng.js:2 | an absent seed string means "default"; a given one is used as is |
| SeededRng.XorshiftNonZero | seededRng.js:9 | a xorshift32 step (13, 17, 5) maps a nonzero state to a nonzero state and zero to zero, so a generator started nonzero never sticks at 0 |
| SeededRng.StateAfter | seededRng.js:7-9 | after any number of steps, a generator started from a nonzero state is still nonzero |
| SeededRng.StateAfterAdds | seededRng.js:7-9 | m steps followed by n steps give the state after m + n steps, so the sequence depends only on the start state |
| SeededRng.Next | seededRng.js:9-11 | one call advances the state by one xorshift step and returns state / 2^32; from a nonzero state the value is in (0,1) |
| SeededRng.Draws | seededRng.js:2-13 | n calls of a generator built from a seed return n values, each strictly inside (0,1); the i-th is the (i+1)-th state over 2^32, so equal seeds give equal sequences |
| Utils.Clamp | src/rooftop-cat/utils.js:2 | for a ≤ b the result lies in [a,b]: it is v when v is in range, a below the range and b above it |
| Utils.Lerp | src/rooftop-cat/utils.js:3 | interpolation returns a at t = 0 and b at t = 1 |
| Utils.OverlapSymmetric | src/rooftop-cat/utils.js:18 | box overlap is symmetric in its two boxes |
| Utils.TouchingDoesNotOverlap | src/rooftop-cat/utils.js:18 | boxes that only touch along an edge (x1 + w1 == x2) do not overlap, in either order |
| Utils.Pick | src/rooftop-cat/utils.js:11 | picking from a non-empty array returns one of its elements |
| Utils.PickWeighted | src/rooftop-cat/utils.js:12-17 | the weighted pick is always one of the listed values |
| Utils.ScanIsFirstReaching | src/rooftop-cat/utils.js:15 | the subtract-and-test loop stops at the first entry whose running weight sum reaches the target, and every earlier running sum stays below it |
| Utils.ScanStopsInside | src/rooftop-cat/utils.js:15-16 | when the target is at most the total weight, the loop returns from inside the list and never reaches the fallback on line 16 |
| Utils.TargetWithinTotal | src/rooftop-cat/utils.js:13-14 | with non-negative weights the target u·total lies in [0, total] |
| Utils.PickWeightedIsFirstReaching | src/rooftop-cat/utils.js:12-17 | with non-negative weights the pick is the first value whose running weight sum reaches u·total |
| Utils.PickWeightedZero | src/rooftop-cat/utils.js:12-17 | a draw of 0 picks the first listed value |
| Utils.ShadeChannel | src/rooftop-cat/utils.js:7 | a shaded channel stays in [0,255]; a non-negative delta never darkens it and a non-positive delta never lightens it |
| Utils.Shade | src/rooftop-cat/utils.js:6-10 | shading returns '#' and six lowercase hex digits, and each of the three channels read back from it is that channel of the input, shaded |
| Utils.Hex2ReadsBack | src/rooftop-cat/utils.js:9 | the two padded hex digits written for a channel read back as that channel's value |
| Utils.ShadeZeroLowercases | src/rooftop-cat/utils.js:6-10 | shading by 0 returns the colour with its hex digits lowercased |
| Obstacles.JumpableGapRange | src/rooftop-cat/obstacles.js:18-25 | speed is clamped to [280,1200]; the range has min < max, min in [96.8,152] and max in [172,310]; inside the clamp it is 80 + 0.06·speed to 130 + 0.15·speed |
| Obstacles.GapRangeMonotone | src/rooftop-cat/obstacles.js:18-25 | a faster game never gets a smaller minimum or maximum gap |
| Obstacles.PickGapWidth | src/rooftop-cat/obstacles.js:31-36 | the picked width lies in [min, max) of the jumpable range at that speed |
| Obstacles.PickGapWidthMonotone | src/rooftop-cat/obstacles.js:31-36 | a larger draw never gives a narrower gap |
| Obstacles.GapWidth | src/rooftop-cat/obstacles.js:196 | the rounded gap width is within half a pixel of the jumpable range and is at least 97 |
| Obstacles.LastLegacySkylightRight | src/rooftop-cat/obstacles.js:49-55 | with no gaps, the runway anchor is the right edge of the last skylight obstacle, and there is none iff no skylight obstacle exists |
| Obstacles.LastSkylightRight | src/rooftop-cat/obstacles.js:39-56 | the runway anchor is the last gap's right edge plus twice the 8-px pad; with no gaps it falls back to the skylight obstacles |
| Obstacles.BlockRight | src/rooftop-cat/obstacles.js:69-78 | the blocking right edge is the largest right edge among watched obstacles within 160 px of the spawn point, and it is absent iff there are none |
| Obstacles.GuardDelayIff | src/rooftop-cat/obstacles.js:79-85 | a guard defers iff some watched obstacle still spans the spawn point, and then its delay is at least 0.08 s |
| Obstacles.ExtraSpan | src/rooftop-cat/obstacles.js:88-89 | the extra wire span is never negative, and it is 0 at or below the base speed |
| Obstacles.AntennaSpeedRatio | src/rooftop-cat/obstacles.js:137-139 | the speed ratio that raises the pylon chance lies in [0,1] |
| Obstacles.VentLength | src/rooftop-cat/obstacles.js:219-231 | every vent-pipe length tier gives a length in [84, 220] |
| Obstacles.VentRunFrac | src/rooftop-cat/obstacles.js:234-237 | the straight-run fraction lies in [0.8, 0.95) for every tier |
| Obstacles.WaterTankShape | src/rooftop-cat/obstacles.js:254-272 | a drum is 96 + 54·u1 wide and 46 + 14·u2 tall; a poly tank is round(base height + 6) tall and at least twice that plus 8 wide; every tank is at least 96 wide and 46 tall |
| Obstacles.MakeObstacle | src/rooftop-cat/obstacles.js:123-391 | every new obstacle is born at the spawn point with positive size; all except the gate and the wire stand on the ground (y + h == groundY); none is a skylight |
| Obstacles.GateAsSpawned | src/rooftop-cat/obstacles.js:296-308 | a new water-tower gate has a 12-px beam whose bottom sits 26 to 29 px above the ground, a stem of at least 28 and a tank of at least 56 |
| Obstacles.SpawnObstacle | src/rooftop-cat/obstacles.js:59-393 | a spawn call either defers with a delay (at least the runway minimum) or appends exactly one obstacle or exactly one gap, and leaves the existing entries unchanged |
| Obstacles.WireGuard | src/rooftop-cat/obstacles.js:68-86 | the call defers before any draw iff a wire spans the spawn point, and the delay is then at least 0.08 s |
| Obstacles.WireOverGroundGuard | src/rooftop-cat/obstacles.js:104-121 | when a wire is picked, it is deferred iff a non-wire obstacle spans the spawn point (gaps are not consulted); otherwise exactly one wire is appended and the gaps are untouched |
| Obstacles.RunwayGuard | src/rooftop-cat/obstacles.js:175-207 | when a gap is picked, it defers iff the runway from the last gap is shorter than 160 + 0.18·(speed − base); otherwise it appends one gap at spawnX + 8 with the rounded width and adds no obstacle |
| Obstacles.PlacedObstacleGrounded | src/rooftop-cat/obstacles.js:123-391 | an appended obstacle starts at spawnX, has positive size and, unless it is a gate or a wire, stands on the ground |
| Obstacles.SpawnKeepsGapsSpaced | src/rooftop-cat/obstacles.js:175-207 | at or above the base speed a new gap starts beyond the previous gap's right edge, so the gap list stays sorted and disjoint |
| Obstacles.PylonColliders | src/rooftop-cat/obstacles.js:161-169 | a pylon has two boxes centred on it: a spine from the top down to the duck clearance (at least 1 px tall) and an 8-px arm |
| Obstacles.PylonAsSpawned | src/rooftop-cat/obstacles.js:147-170 | a new pylon's clearance is at least 34 and at least duck height + 10, and both of its boxes end at or above groundY − clearance |
| Obstacles.GateColliders | src/rooftop-cat/obstacles.js:315-333 | a gate has a duck bar at least 20 wide with the gate's own height, and a tower box as wide as the gate with non-negative height |
| Obstacles.GateTowerRestsOnBar | src/rooftop-cat/obstacles.js:296-334 | for a new gate the bar's bottom is at groundY − clearance, and the tower has height stem + tankH + 18 > 0 with its bottom on the bar's top |
| Obstacles.SegmentBox | src/rooftop-cat/obstacles.js:380-385 | a cable segment's box is at least 1 px wide and 1 px tall |
| Obstacles.SegmentBoxHoldsEnds | src/rooftop-cat/obstacles.js:378-385 | a segment's box contains both of its end points |
| Obstacles.WireColliders | src/rooftop-cat/obstacles.js:353-388 | a wire has exactly 10 boxes: two 6-px poles centred on x and x + w that end at the anchor y and are poleH tall (30 when unset), then 8 boxes spanning consecutive Bézier samples |
| Obstacles.CableBoxesHoldSamples | src/rooftop-cat/obstacles.js:368-386 | cable box i contains the Bézier samples B(i/8) and B((i+1)/8) |
| Obstacles.WireAsSpawned | src/rooftop-cat/obstacles.js:336-387 | a spawned wire keeps the ground line as its resize anchor (baseY), its cable hangs 48 to 74 px above that line, its 28–44 px poles rise from the cable's height, and all ten of its boxes are at least 1 px by 1 px |
| Obstacles.CableEndsAtPoles | src/rooftop-cat/obstacles.js:369-374 | the cable curve starts at the left pole top and ends at the right pole top |
| Obstacles.Colliders | src/rooftop-cat/RooftopCat.jsx:675-680 | every obstacle has at least one collider; a plain obstacle has exactly its own box |
| Obstacles.MovedBy | src/rooftop-cat/RooftopCat.jsx:639 | scrolling moves only x, by dx |
| Obstacles.LiftedBy | src/rooftop-cat/RooftopCat.jsx:289-292 | a resize shift moves y and any baseY by the same dy and changes nothing else |
| Obstacles.LiftedColliders | src/rooftop-cat/RooftopCat.jsx:288-292 | lifting an obstacle lifts every one of its colliders by dy and keeps their count |
| Obstacles.MovedColliders | src/rooftop-cat/RooftopCat.jsx:639 | scrolling by dx keeps the number of colliders and moves every one of them, poles and cable boxes alike, by dx in x only |
| Deck.InitUnderDeck | src/rooftop-cat/drawDeck.js:566-590 | deck set-up: no gaps, scroll 0, id counter 1, salt in [0, 2^31−1), 4 themes, first-span theme in [0,4) and carried, period 166, nothing built, nothing requested, no theme assigned |
| Deck.NextGid | src/rooftop-cat/drawDeck.js:607 | the next gap id is above the counter and at least 2 |
| Deck.AssignGids | src/rooftop-cat/drawDeck.js:605-608 | every gap ends with an id; ids already set are kept; new ids are above the old counter, at most the new counter and increasing along the list; positions and widths are unchanged |
| Deck.AssignKeepsGidsFresh | src/rooftop-cat/drawDeck.js:605-608 | if the ids in use are distinct and below the counter, that still holds after assignment, so ids stay distinct and stable |
| Deck.Rand01 | src/rooftop-cat/drawDeck.js:760-767 | the hash value lies in [0,1], and it is exactly 1 iff the final hash word is 0xFFFFFFFF |
| Deck.ScaleToIndex | src/rooftop-cat/drawDeck.js:773 | floor(r·count) lies in [0, count], and it equals count only when count is 0 or r is 1 |
| Deck.PickThemeIndex | src/rooftop-cat/drawDeck.js:770-774 | the theme index is a function of (gapId, salt) in [0, count]; it equals count iff count is 0 or the hash word is 0xFFFFFFFF |
| Deck.HashAllOnesPreimage | src/rooftop-cat/drawDeck.js:760-772 | the hash word is 0xFFFFFFFF for exactly one value of gapId ^ salt, namely 0xb83b08ac |
| Deck.ThemeIndexInRange | src/rooftop-cat/drawDeck.js:770-774 | for ids and salts below 2^31 the index is always below count |
| Deck.InsertByX | src/rooftop-cat/drawDeck.js:778 | inserting into a list sorted by x gives a sorted permutation of the list plus the new gap |
| Deck.SortByX | src/rooftop-cat/drawDeck.js:778 | the sorted copy is ordered by x and is a permutation of the gaps |
| Deck.SortedKeepsWidths | src/rooftop-cat/drawDeck.js:778 | sorting keeps every width non-negative |
| Deck.WorldSpansFrom | src/rooftop-cat/drawDeck.js:782-794 | the world spans are non-empty, start at or after the cursor, have positive widths, and end with an open-ended span that has no right gap |
| Deck.WorldSpansAscending | src/rooftop-cat/drawDeck.js:785-794 | the world spans are in ascending order and pairwise disjoint |
| Deck.WorldSpansAvoidGaps | src/rooftop-cat/drawDeck.js:785-794 | no world span meets any gap widened by the margin |
| Deck.WorldSpansCover | src/rooftop-cat/drawDeck.js:785-794 | every point in reach that lies outside all widened gaps is inside some span |
| Deck.Clip | src/rooftop-cat/drawDeck.js:796-801 | clipped spans lie within [0, W] with positive widths, and clipping never adds spans |
| Deck.ClipLowerBound | src/rooftop-cat/drawDeck.js:796-801 | clipping keeps a lower bound on span starts |
| Deck.ClipKeepsAvoid | src/rooftop-cat/drawDeck.js:796-801 | a clipped span still avoids every gap its original avoided |
| Deck.ClipKeepsOrder | src/rooftop-cat/drawDeck.js:796-801 | clipping keeps spans ascending and disjoint |
| Deck.ClipKeepsScreenPoints | src/rooftop-cat/drawDeck.js:796-801 | an on-screen point inside a span is still inside some clipped span |
| Deck.WorldSpansThenClip | src/rooftop-cat/drawDeck.js:777-804 | the result is never empty; with no gaps it is the one span [0, W) with no gaps; every span lies in [0, W] and, for W > 0, has positive width |
| Deck.SpansAscending | src/rooftop-cat/drawDeck.js:777-804 | the visible spans are ascending and pairwise disjoint |
| Deck.SpansAvoidGaps | src/rooftop-cat/drawDeck.js:777-804 | apart from the whole-screen fallback, no visible span meets [round(g.x) − margin, round(g.x + g.w) + margin) for any gap |
| Deck.SpansCoverWall | src/rooftop-cat/drawDeck.js:777-804 | every on-screen point outside all widened gaps is covered by a visible span |
| Deck.SpanTheme | src/rooftop-cat/drawDeck.js:836-843 | a span with a left gap takes that gap's theme, assigned on first use and never changed afterwards; a span without one takes the carried theme |
| Deck.ThemesFrom | src/rooftop-cat/drawDeck.js:835-863 | along the spans, each one's theme is its left gap's stored theme or the carry, and themes already assigned are never changed |
| Deck.FacadeThemes | src/rooftop-cat/drawDeck.js:828-865 | as for ThemesFrom; in addition the new carry is the leftmost span's theme, and it is unchanged when there are no spans |
| Deck.FacadeThemesInRange | src/rooftop-cat/drawDeck.js:828-865 | with a valid carry, salt and stored themes, every span theme and every newly stored theme lies in [0, count) |
| Deck.TileOffset | src/rooftop-cat/drawDeck.js:875 | the tile offset lies in [0, period) |
| Deck.TileOffsetIsEuclid | src/rooftop-cat/drawDeck.js:875 | the double truncated remainder is the Euclidean remainder of phase + startX |
| Deck.JsRemOfNonNegative | src/rooftop-cat/drawDeck.js:875 | for a non-negative dividend the truncated and Euclidean remainders agree |
| Deck.EuclidRemShift | src/rooftop-cat/drawDeck.js:875 | shifting by whole periods leaves the Euclidean remainder unchanged |
| Deck.AlignedStart | src/rooftop-cat/drawDeck.js:877 | the first tile's left edge is congruent to −deckScrollX modulo the period |
| Deck.Tiles | src/rooftop-cat/drawDeck.js:869-880 | the tile loop starts left of the span, every tile edge is ≡ −deckScrollX (mod period), consecutive tiles are one period apart, and the tiles cover [startX, startX + spanW) |
| Deck.EnsureCache | src/rooftop-cat/drawDeck.js:686-696 | no new build is scheduled iff the key tileH\|period\|themeCount is unchanged and the cache is ready or already requested; otherwise the key and tileH are stored, ready is cleared and requested is set |
| Deck.BuildDone | src/rooftop-cat/drawDeck.js:698-704 | a finished build marks every theme's tile built, sets ready, clears requested and keeps the key |
| Deck.EnsureCacheIdempotent | src/rooftop-cat/drawDeck.js:686-705 | asking again with the same key schedules nothing |
| Deck.BuiltCacheIsStable | src/rooftop-cat/drawDeck.js:686-705 | once the scheduled build has finished, the same key schedules nothing |
| Deck.DrawDeck | src/rooftop-cat/drawDeck.js:596-680 | a deck frame gives every gap an id and keeps positions and widths; it keeps the stored themes and leaves the carry equal to the leftmost visible span's theme |
| RoofBlocks.BasesAreHexColours | src/rooftop-cat/roofBlocks.js:10 | every base colour is a well-formed #rrggbb hex colour |
| RoofBlocks.RandomTheme | src/rooftop-cat/roofBlocks.js:9-13 | a theme's base is one of the seven bases, and its variants are the base and the base shaded by −8 and by −14 |
| RoofBlocks.ThemeDarkens | src/rooftop-cat/roofBlocks.js:12 | in every channel, the −14 variant is no lighter than the −8 variant, which is no lighter than the base |
| RoofBlocks.PickVariant | src/rooftop-cat/roofBlocks.js:14-17 | the picked colour is one of the theme's variants |
| RoofBlocks.FillBlocks | src/rooftop-cat/roofBlocks.js:106-112 | the fill starts at the given x, is contiguous, ends at or past the limit, and has panelled blocks of width [90,250) in theme colours |
| RoofBlocks.InitRoofBlocks | src/rooftop-cat/roofBlocks.js:20-35 | set-up lays out contiguous blocks from x = −40, each of width [90,250), until the right edge is at least w + 260; there are no seams |
| RoofBlocks.MoveRoof | src/rooftop-cat/roofBlocks.js:41-45 | every block and seam moves left by speed·dt, using 300 when the speed is 0 |
| RoofBlocks.MoveKeepsContiguous | src/rooftop-cat/roofBlocks.js:44 | moving keeps the blocks contiguous |
| RoofBlocks.FindBlock | src/rooftop-cat/roofBlocks.js:54-60 | the result is the first block holding the seam strictly inside, or none iff no block holds it |
| RoofBlocks.SplitBlock | src/rooftop-cat/roofBlocks.js:62-90 | a split gives the left piece [b.x, sx) with b's colour and panels, then a 4-px dark strip with no panels, then a right piece only if the remainder is ≥ 8; the right piece reaches b's right edge; the pieces are contiguous |
| RoofBlocks.RightPiece | src/rooftop-cat/roofBlocks.js:86-90 | the right piece is panelled and coloured from a fresh theme |
| RoofBlocks.ProcessSeam | src/rooftop-cat/roofBlocks.js:52-96 | a seam is kept iff it lies inside no block, and then blocks, theme and draws are untouched |
| RoofBlocks.SeamAt | src/rooftop-cat/roofBlocks.js:62-96 | a seam found inside a block is always consumed |
| RoofBlocks.ProcessSeamSplits | src/rooftop-cat/roofBlocks.js:62-93 | a seam with both sides ≥ 8 replaces its block in place by the split pieces |
| RoofBlocks.SliverSeamDropped | src/rooftop-cat/roofBlocks.js:66-70 | a seam leaving a side under 8 px is dropped, and the blocks are unchanged |
| RoofBlocks.SplitStaysWithin | src/rooftop-cat/roofBlocks.js:76-90 | the pieces of a split lie within the block they replace |
| RoofBlocks.SplitKeepsContiguous | src/rooftop-cat/roofBlocks.js:72-93 | if a seam's remainder after the strip is ≥ 8, processing it keeps the blocks contiguous |
| RoofBlocks.SplitWithoutRightPartLeavesHole | src/rooftop-cat/roofBlocks.js:86-90 | when the remainder is under 8, the pieces end short of the old right edge, which leaves a hole in the roof |
| RoofBlocks.ProcessKeepsOutside | src/rooftop-cat/roofBlocks.js:51-96 | a point inside no block stays inside no block after a seam is processed |
| RoofBlocks.SplitSeams | src/rooftop-cat/roofBlocks.js:51-97 | the seam loop keeps only seams from the input, and never more of them |
| RoofBlocks.KeptSeamsAreOutside | src/rooftop-cat/roofBlocks.js:51-97 | every seam the loop keeps lies inside no block of the result |
| RoofBlocks.KeepsOutsideThroughLoop | src/rooftop-cat/roofBlocks.js:51-97 | a point inside no block stays so through the whole loop |
| RoofBlocks.ThemeStaysUsable | src/rooftop-cat/roofBlocks.js:88 | the current theme always has variants to pick from |
| RoofBlocks.CullBlocks | src/rooftop-cat/roofBlocks.js:100 | culling removes only a head prefix of blocks whose right edge is < −80 |
| RoofBlocks.CullSeams | src/rooftop-cat/roofBlocks.js:101 | every kept seam comes from the input and has x ≥ −120, every seam with x ≥ −120 is kept, and the list never grows |
| RoofBlocks.CullSeamsAppend | src/rooftop-cat/roofBlocks.js:101 | culling a concatenation is culling each part, so the cull keeps seam order and multiplicity |
| RoofBlocks.CullSeamsSingle | src/rooftop-cat/roofBlocks.js:101 | a single seam is kept iff x ≥ −120 |
| RoofBlocks.RefillKeepsContiguous | src/rooftop-cat/roofBlocks.js:106-112 | appending the refill to contiguous blocks stays contiguous and reaches the limit |
| RoofBlocks.UpdateRoofBlocks | src/rooftop-cat/roofBlocks.js:38-113 | after a frame, seams are at x ≥ −120 and never more numerous, the right edge is at least canvasW + 260, and the theme is usable |
| Scenery.SkylineFrom | src/rooftop-cat/scenery.js:22-28 | the skyline loop is empty iff the cursor already reaches the limit, starts at the cursor, and uses 4 draws per building |
| Scenery.SkyBuilding | src/rooftop-cat/scenery.js:24-26 | a skyline building starts at the cursor, sits on the base line and is 60 to 180 wide |
| Scenery.SkylineShape | src/rooftop-cat/scenery.js:22-28 | skyline buildings start inside [x, limit), sit on the base line, are 60 to 180 wide, do not overlap their successor, and the last one comes within one step of the limit |
| Scenery.SkylineNonOverlapping | src/rooftop-cat/scenery.js:23-28 | any later skyline building starts at or after the end of any earlier one |
| Scenery.MakeSkyline | src/rooftop-cat/scenery.js:16-30 | the skyline starts at x = −80, is bottom-aligned at h − 260, stops before w + 200, and runs left to right without overlap |
| Scenery.WindowRow | src/rooftop-cat/scenery.js:141-147 | a row lights only inner cells, and warm cells are lit |
| Scenery.WindowRows | src/rooftop-cat/scenery.js:140-148 | the window grid lights only inner cells, and warm cells are lit |
| Scenery.MakeWindows | src/rooftop-cat/scenery.js:132-150 | cols = max(3, ⌊bw/cellX⌋) and rows = max(4, ⌊bh/cellY⌋); each lit id r·1000 + c has 1 ≤ r ≤ rows−2 and 1 ≤ c ≤ cols−2; warm ⊆ lit |
| Scenery.RoofSteps | src/rooftop-cat/scenery.js:100-108 | the step loop makes at most the remaining count of steps; the first starts at the cursor, none reaches past bw − 6, and each starts at least 4 px after the previous one ends |
| Scenery.StepWidth | src/rooftop-cat/scenery.js:103 | a roof step is 12 to 60 wide |
| Scenery.DetailVents | src/rooftop-cat/scenery.js:111-114 | the vent loop makes exactly the drawn count of vents |
| Scenery.Slits | src/rooftop-cat/scenery.js:117-124 | at most one slit per remaining column; all lie within [6 + 14c, 10 + 14(cols − 1)), left to right and more than 10 px apart |
| Scenery.MakeBottomDetail | src/rooftop-cat/scenery.js:98-130 | at most 3 roof steps, starting at x ≥ 4, spaced 4 px apart and ending by bw − 6; at most 2 vents; at most max(2, ⌊bw/14⌋) slits; a rail, if any, starts 6 px in with width max(0, bw − 12) |
| Scenery.MakeBuildingObj | src/rooftop-cat/scenery.js:63-80 | windows are absent iff silhouette; bottom detail is present iff silhouette; a billboard only on non-silhouettes at scale 1; seed in [0, 2^31 − 1); twinkle rate in [1.2, 3.2) |
| Scenery.Roll | src/rooftop-cat/scenery.js:89-95 | a roof-prop roll that is not allowed draws nothing and adds nothing |
| Scenery.CommonRoofProps | src/rooftop-cat/scenery.js:89-91 | the props any tall building may get are at most 3, none front-only |
| Scenery.FrontRoofProps | src/rooftop-cat/scenery.js:92-95 | front-only props are added only to front buildings, and at most 4; a new vent starts with its timer at 0 |
| Scenery.TallRoofProps | src/rooftop-cat/scenery.js:88-95 | a tall roof has at most 7 props, and a back building has no front-only prop |
| Scenery.DecorateTall | src/rooftop-cat/scenery.js:82-96 | decoration sets the panel step in [16,25], alpha 0.12 front or 0.08 back, the layer, and a palette colour for the layer; it changes nothing else |
| Scenery.TallLoop | src/rooftop-cat/scenery.js:38-47 | the tall loop from index i adds exactly 18 − i buildings to the front and back lists, all on groundY with their layer, and leaves the bottom lists alone |
| Scenery.BottomLoop | src/rooftop-cat/scenery.js:49-58 | the bottom loop from index i adds exactly 24 − i silhouettes, all resting on h − 8, and leaves the tall lists alone |
| Scenery.MakeCityLayers | src/rooftop-cat/scenery.js:32-61 | the city has 18 tall buildings on groundY, split front and back, and 24 bottom buildings on h − 8 |
| Scenery.SceneRand01 | src/rooftop-cat/scenery.js:177-178 | the scenery hash value lies in [0,1], and it is exactly 1 iff the hash word is all ones |
| Scenery.WindowAt | src/rooftop-cat/scenery.js:223-238 | authored rows read the generated sets; extended rows are lit iff the (seed, r, c) hash is below the density, and warm iff also lit and a second hash is below 0.8 |
| Scenery.WarmWindowIsLit | src/rooftop-cat/scenery.js:227-238 | a warm window is always lit |
| Scenery.GeneratedWarmIsLit | src/rooftop-cat/scenery.js:228-238 | for any generated building, every window drawn warm is lit |
| Scenery.StretchKeepsWindows | src/rooftop-cat/scenery.js:213-238 | stretching changes only the drawn row count (a taller building draws at least the rows it drew before), never a cell's lit or warm state, so stretching below the deck does not flicker |
| Effects.PushBounded | src/rooftop-cat/effects.js:11-12 | pushing drops the oldest particle when the buffer is over the cap, so a buffer within cap + 1 stays within it; the new particle is last |
| Effects.Survivors | src/rooftop-cat/effects.js:26 | every kept particle is live (life > 0 and a > 0), every live particle is kept, and the result is a subsequence of the input |
| Effects.SurvivorsAppend | src/rooftop-cat/effects.js:26 | filtering a concatenation is filtering each part, so the filter keeps order and multiplicity |
| Effects.SurvivorsSingle | src/rooftop-cat/effects.js:26 | a single particle is kept iff it is live |
| Effects.SurvivorsIdempotent | src/rooftop-cat/effects.js:26 | filtering twice is the same as filtering once |
| Effects.SteamParticle | src/rooftop-cat/effects.js:9-12 | a steam puff starts 4 px right of the vent, 6 px above the roof, with life 1.8 |
| Effects.StepProp | src/rooftop-cat/effects.js:4-16 | a vent counts down; when it fires its timer resets into [1.2, 2.8) and one steam particle is pushed; a fan turns by its rate, 1.2 when unset; other props are unchanged |
| Effects.StepRoof | src/rooftop-cat/effects.js:4-17 | the props of a roof keep their number, positions and kinds, and steam stays within cap + 1 |
| Effects.EmitSteam | src/rooftop-cat/effects.js:2-19 | the steam buffer stays at most 111 if it started there; buildings change only in their props |
| Effects.UpdateSteam | src/rooftop-cat/effects.js:21-27 | after ageing, only live steam particles remain, every aged live one is kept, in order, and the list never grows |
| Effects.UpdateSteamAppend | src/rooftop-cat/effects.js:21-27 | updating a concatenation of steam lists is updating each part |
| Effects.UpdateSteamSingle | src/rooftop-cat/effects.js:21-27 | a single steam particle is kept, aged, iff it is still live after ageing |
| Effects.Puff | src/rooftop-cat/effects.js:35-43 | a landing puff starts within ±4 px horizontally and ±1 px vertically of the point, with alpha 0.5 and life in [0.6, 1) |
| Effects.SpawnPuffs | src/rooftop-cat/effects.js:29-45 | with reduced motion nothing changes; otherwise exactly 3 puffs are appended, dropping the oldest over 38, so a buffer within 39 stays within it |
| Effects.UpdatePuffs | src/rooftop-cat/effects.js:47-54 | after ageing, only live puffs remain, every aged live one is kept, in order, and the list never grows |
| Effects.UpdatePuffsAppend | src/rooftop-cat/effects.js:47-54 | updating a concatenation of puff lists is updating each part |
| Effects.UpdatePuffsSingle | src/rooftop-cat/effects.js:47-54 | a single puff is kept, aged, iff it is still live after ageing |
| Weather.AreaCount | src/rooftop-cat/weather.js:42-45 | an area-scaled count is never below its floor |
| Weather.RainCount | src/rooftop-cat/weather.js:42-45 | there are at least 30 raindrops |
| Weather.SnowCount | src/rooftop-cat/weather.js:65-68 | there are at least 20 snowflakes |
| Weather.StormRainCount | src/rooftop-cat/weather.js:131-134 | there are at least 60 storm raindrops |
| Weather.FogCount | src/rooftop-cat/weather.js:106 | there are at least 6 fog blobs |
| Weather.CountsAtBaseline | src/rooftop-cat/weather.js:41-45 | at 1280×720 the counts are the authored ones: rain 160/80, snow 140/80, storm 320/180 |
| Weather.AreaCountMonotone | src/rooftop-cat/weather.js:42-45 | a larger view never gets fewer particles |
| Weather.StormOutrainsRain | src/rooftop-cat/weather.js:133-134 | a storm never has fewer drops than plain rain in the same view |
| Weather.Drops | src/rooftop-cat/weather.js:48-57 | exactly count drops; each has depth z in [0,1), and its speed and slant are the depth-scaled rain or storm formulas |
| Weather.Flakes | src/rooftop-cat/weather.js:71-82 | exactly count flakes, each of radius [1, 3.2) |
| Weather.Blobs | src/rooftop-cat/weather.js:110-121 | exactly count fog blobs, each of radius [80, 240) and alpha [0.35, 0.6) |
| Weather.FirstStorm | src/rooftop-cat/weather.js:150-154 | a storm starts with no flash and its first bolt in [3, 6.5), or [3.5, 8) under reduced motion |
| Weather.InitWeather | src/rooftop-cat/weather.js:18-32 | everything is cleared and only the chosen mode is filled, with its count; "none" or an unknown mode leaves everything empty |
| Weather.Trunk | src/rooftop-cat/weather.js:248-254 | the bolt trunk has one point per remaining step |
| Weather.BranchTail | src/rooftop-cat/weather.js:263-267 | a branch goes downward, at least 10 px per point |
| Weather.Branches | src/rooftop-cat/weather.js:258-270 | every branch starts on a trunk point and goes downward; there is at most one per interior point |
| Weather.SpawnBolt | src/rooftop-cat/weather.js:241-272 | a bolt has 11 to 15 trunk points, at most points − 4 downward branches, life 0.22 and age 0 |
| Weather.AgeBolts | src/rooftop-cat/weather.js:177 | every bolt ages by dt |
| Weather.ExpiredPrefix | src/rooftop-cat/weather.js:178-180 | the expired prefix is the longest head run of bolts with age > life |
| Weather.CullBolts | src/rooftop-cat/weather.js:178-180 | only a head prefix of expired bolts is removed |
| Weather.FadeFlash | src/rooftop-cat/weather.js:172-174 | a positive flash becomes max(0, flash − 0.6·dt), so it never goes negative |
| Weather.NextGap | src/rooftop-cat/weather.js:166-168 | the next bolt comes in [2.5, 5) s, or [3, 6) s under reduced motion |
| Weather.AdvanceLightning | src/rooftop-cat/weather.js:159-181 | no storm means no change; otherwise the timer counts down, and at ≤ 0 exactly one bolt is appended, the flash is raised to at least 0.35 and the timer is reset into its range; the flash fades and stays non-negative, and bolts age and are culled |
| Weather.LightningLeavesFromFront | src/rooftop-cat/weather.js:177-180 | the surviving bolts are a suffix of the aged list, and everything removed had expired |
| Weather.FreshBoltSurvives | src/rooftop-cat/weather.js:163-180 | a bolt spawned this frame is still the last bolt afterwards, aged by dt, whenever dt is within its life |
| GameStep.CenterOverGap | src/rooftop-cat/RooftopCat.jsx:460-469 | false for no gaps; true iff x + w/2 lies strictly inside (g.x + pad, g.x + g.w − pad) for some gap |
| GameStep.MoveGaps | src/rooftop-cat/RooftopCat.jsx:646 | every gap moves by the same dx |
| GameStep.OverGapMovesWithWorld | src/rooftop-cat/RooftopCat.jsx:460-469 | moving the cat and the gaps together does not change whether the cat is over a gap |
| GameStep.RampSpeed | src/rooftop-cat/RooftopCat.jsx:486-487 | the new speed is min(speedMax, speed + 36·rm·dt), never above the cap and never below the old speed |
| GameStep.Decay | src/rooftop-cat/RooftopCat.jsx:490-491 | a countdown timer never goes negative, stays positive iff it exceeded dt, and never grows |
| GameStep.Launch | src/rooftop-cat/RooftopCat.jsx:490-498 | both timers are non-negative; when the jump fires the cat gets jumpVel and leaves the ground, and the buffer and hold timer are zeroed; otherwise only the timers tick |
| GameStep.NoJumpInMidAir | src/rooftop-cat/RooftopCat.jsx:493-498 | an airborne cat whose coyote time has run out cannot jump |
| GameStep.Fall | src/rooftop-cat/RooftopCat.jsx:500-509 | while rising, gravity is ×0.55 when the jump is held and the hold time is under 0.22 (the hold time grows), ×1.9 when released, and plain otherwise |
| GameStep.HoldingFloats | src/rooftop-cat/RooftopCat.jsx:500-509 | a held jump rises at least as far as an expired hold, which rises at least as far as a released one |
| GameStep.PuffIntensity | src/rooftop-cat/RooftopCat.jsx:528 | landing-puff intensity lies in [10, 18] |
| GameStep.Ground | src/rooftop-cat/RooftopCat.jsx:512-540 | the cat lands iff it is not over a gap and its feet reach groundY; landing snaps y, zeroes vy, refreshes coyote time to 0.12 and zeroes the hold timer; a puff is emitted iff it was airborne |
| GameStep.SolidDeckHoldsPlayer | src/rooftop-cat/RooftopCat.jsx:515-521 | off a gap, the cat's feet never end below the deck |
| GameStep.GapLetsPlayerFall | src/rooftop-cat/RooftopCat.jsx:516-539 | over a gap the cat is never on the ground |
| GameStep.StandingStill | src/rooftop-cat/RooftopCat.jsx:490-540 | with dt = 0 and an empty buffer, a grounded cat is unchanged and makes no puff |
| GameStep.FallbackDelay | src/rooftop-cat/RooftopCat.jsx:628-635 | within the speed range the fallback spawn delay lies in [0.4752, 2.0412) |
| GameStep.SpawnStep | src/rooftop-cat/RooftopCat.jsx:623-636 | the timer counts down; at ≤ 0 the spawner runs, and its delay or the fallback delay becomes the timer, which is positive within the speed range; at most one obstacle and one gap are appended |
| GameStep.MoveObstacles | src/rooftop-cat/RooftopCat.jsx:639 | every obstacle moves by the same dx |
| GameStep.CullCount | src/rooftop-cat/RooftopCat.jsx:640-641 | the cull removes the longest head run whose right edges are < −80, and stops at the first one that is not |
| GameStep.CullIsSuffix | src/rooftop-cat/RooftopCat.jsx:640-641 | the kept obstacles are a suffix, the removed ones all had right edge < −80, and the first kept one does not |
| GameStep.MoveKeepsGapsSpaced | src/rooftop-cat/RooftopCat.jsx:646 | a common scroll keeps the gaps sorted and disjoint |
| GameStep.SuffixKeepsGapsSpaced | src/rooftop-cat/RooftopCat.jsx:647-648 | dropping head gaps keeps them sorted and disjoint |
| GameStep.ScrollKeepsGapsSpaced | src/rooftop-cat/RooftopCat.jsx:644-648 | scroll and cull together keep the gaps sorted and disjoint |
| GameStep.AnyOverlap | src/rooftop-cat/RooftopCat.jsx:682-685 | the hitbox hits iff it overlaps one of the rectangles |
| GameStep.ObstacleHit | src/rooftop-cat/RooftopCat.jsx:675-694 | the cat hits an obstacle iff its inset hitbox overlaps one of that obstacle's colliders |
| GameStep.RailRects | src/rooftop-cat/RooftopCat.jsx:697-704 | each gap has two 6-px walls, one left of it and one right of it, running from the under-deck top to max(top, worldBottom) |
| GameStep.RailHit | src/rooftop-cat/RooftopCat.jsx:702-714 | the cat hits a rail iff its hitbox overlaps a wall of some gap |
| GameStep.RailsSpareTheDeck | src/rooftop-cat/RooftopCat.jsx:697-707 | a cat whose feet are above the under-deck top never hits a rail |
| GameStep.Crash | src/rooftop-cat/RooftopCat.jsx:688-689 | a crash starts a 0.45 s shake of amplitude 3 (reduced motion) or 6 from t = 0 and a 0.28 s hit flash, and changes nothing else in the world |
| GameStep.SpeedRatio | src/rooftop-cat/RooftopCat.jsx:721-724 | the score's speed ratio lies in [0,1]: 0 at or below base speed and 1 at or above the cap |
| GameStep.ScoreMult | src/rooftop-cat/RooftopCat.jsx:725 | the score multiplier lies in [0.85, 2.15] |
| GameStep.ScoreGain | src/rooftop-cat/RooftopCat.jsx:726 | a frame's score gain is never negative |
| GameStep.Best | src/rooftop-cat/RooftopCat.jsx:728-735 | the best is the old best or ⌊score⌋, and at least both |
| GameStep.ShakeStep | src/rooftop-cat/RooftopCat.jsx:738-739 | the shake clock runs until its duration, after which the amplitude is zeroed |
| GameStep.HintStep | src/rooftop-cat/RooftopCat.jsx:741-742 | the hint fades only after the first jump, never below 0 and never brighter |
| GameStep.Advance | src/rooftop-cat/RooftopCat.jsx:623-648 | the spawn phase, then obstacles and gaps scroll by −speed·dt and are culled, and the deck scroll grows by speed·dt; nothing else changes |
| GameStep.Finish | src/rooftop-cat/RooftopCat.jsx:718-744 | the end of the frame adds the score gain, steps the shake and the hint, and counts down the hit flash |
| GameStep.Update | src/rooftop-cat/RooftopCat.jsx:471-745 | a frame ends Playing or Dead; Dead iff the cat fell below worldBottom + 20 or hit a collider or a rail; death keeps score and best; otherwise best ≥ ⌊score⌋; speed is ramped and timers stay non-negative |
| GameStep.SpeedStaysInRange | src/rooftop-cat/RooftopCat.jsx:486-487 | speed stays within [base, max] and never drops from frame to frame |
| GameStep.ScoreNeverDrops | src/rooftop-cat/RooftopCat.jsx:721-726 | the score never decreases over a frame |
| GameStep.SpawnStepKeepsGapsSpaced | src/rooftop-cat/RooftopCat.jsx:623-636 | the spawn phase keeps the gaps sorted and disjoint |
| GameStep.AdvanceKeepsGapsSpaced | src/rooftop-cat/RooftopCat.jsx:623-648 | spawn, scroll and cull keep the gaps sorted and disjoint |
| GameStep.UpdateKeepsGapsSpaced | src/rooftop-cat/RooftopCat.jsx:623-648 | a whole frame keeps the gaps sorted and disjoint |
| GameStep.GroundedMeansOnDeck | src/rooftop-cat/RooftopCat.jsx:515-536 | a cat on the ground after a frame stands exactly on the deck, not over a gap, with vy 0 and fresh coyote time |
| GameStep.FrameDt | src/rooftop-cat/RooftopCat.jsx:454 | the frame time is capped at 0.032 s and is non-negative for a non-negative elapsed time |
| GameStep.Step | src/rooftop-cat/RooftopCat.jsx:453-458 | the game is updated only while Playing, with the capped dt; in every other mode nothing changes |
| GameInput.CalcGroundY | src/rooftop-cat/RooftopCat.jsx:176-180 | the ground is the whole-pixel floor of 66% of the view height |
| GameInput.ResetRun | src/rooftop-cat/RooftopCat.jsx:240-267 | reset gives base speed, no obstacles and no gaps, spawn timer 0.2, no shake, score 0 unless kept, a fresh deck, and the cat standing on the new ground; mode, input and best are kept |
| GameInput.LiftAll | src/rooftop-cat/RooftopCat.jsx:289-292 | every obstacle is lifted by the same dy |
| GameInput.SyncGround | src/rooftop-cat/RooftopCat.jsx:269-292 | an unchanged ground changes nothing; otherwise every obstacle's y and baseY shift by dy, only a grounded cat is re-snapped, and nothing else changes |
| GameInput.SyncIdempotent | src/rooftop-cat/RooftopCat.jsx:269-292 | syncing twice is syncing once |
| GameInput.SyncKeepsObstaclesAnchored | src/rooftop-cat/RooftopCat.jsx:288-292 | after a resize every obstacle, and each of its colliders, is at the same height above the ground as before |
| GameInput.SyncKeepsPlayerGrounded | src/rooftop-cat/RooftopCat.jsx:281-286 | a cat standing on the deck still stands on it after a resize |
| GameInput.ResetIsInSync | src/rooftop-cat/RooftopCat.jsx:305-306 | the sync that follows a reset changes nothing |
| GameInput.ApiReset | src/rooftop-cat/RooftopCat.jsx:308-324 | the reset button returns to Ready with no held inputs or touches and a fresh run standing on the ground |
| GameInput.StartOrJump | src/rooftop-cat/RooftopCat.jsx:328-333 | from Dead it starts a fresh run; from Ready it starts playing; otherwise it buffers a jump (0.12 s) and marks the first jump done |
| GameInput.ReadyStartJumpsNextFrame | src/rooftop-cat/RooftopCat.jsx:328-333 | starting from Ready on the ground makes the next frame's jump fire with jumpVel |
| GameInput.DeadStartIsFreshRun | src/rooftop-cat/RooftopCat.jsx:329 | a start after death is a playing run with score 0, base speed, no obstacles and the cat grounded |
| GameInput.Lower | src/rooftop-cat/RooftopCat.jsx:337 | lower-casing maps A–Z to a–z and keeps every other character |
| GameInput.IndexOf | src/rooftop-cat/RooftopCat.jsx:351 | the index is the first occurrence, or −1 iff the value is absent |
| GameInput.NextInOrder | src/rooftop-cat/RooftopCat.jsx:350-352 | the next mode is in the order, and an unknown current mode moves to the first |
| GameInput.NextOfMember | src/rooftop-cat/RooftopCat.jsx:350-352 | the next mode is the following entry, wrapping from the last to the first |
| GameInput.CycledIndex | src/rooftop-cat/RooftopCat.jsx:350-352 | m presses move m places along the order, wrapping once |
| GameInput.CycleReturns | src/rooftop-cat/RooftopCat.jsx:350-352 | pressing as many times as there are modes returns to the start |
| GameInput.KeyOrdersDistinct | src/rooftop-cat/RooftopCat.jsx:350-357 | the day-cycle and weather orders list each mode once |
| GameInput.KeyDown | src/rooftop-cat/RooftopCat.jsx:335-361 | repeats are ignored; any key resumes a pause; jump keys start or buffer a jump and hold it; duck keys duck; P pauses only while playing; T and R cycle the day and weather modes; any other key changes nothing |
| GameInput.PauseRoundTrip | src/rooftop-cat/RooftopCat.jsx:340-348 | P pauses a playing game, and the next key press restores it exactly |
| GameInput.PauseOnlyWhilePlaying | src/rooftop-cat/RooftopCat.jsx:348 | P leaves a Ready or Dead game alone |
| GameInput.ReleasedVy | src/rooftop-cat/RooftopCat.jsx:365 | releasing the jump scales a rising speed by 0.75, which stays rising, and leaves a falling one alone |
| GameInput.KeyUp | src/rooftop-cat/RooftopCat.jsx:363-367 | releasing a jump key clears the hold and cuts a rise; releasing a duck key stands up; other keys and the world are untouched |
| GameInput.ReleaseCutsTheJump | src/rooftop-cat/RooftopCat.jsx:363-366 | after a jump key is released mid-rise, the cat is still rising but under the ×1.9 cut gravity |
| GameInput.PointerDown | src/rooftop-cat/RooftopCat.jsx:370-413 | a touch resumes a pause and clears holds; a left-half touch ducks and takes over a jump finger; a right-half touch starts or buffers a jump, holds it and takes over a duck finger |
| GameInput.PointerRelease | src/rooftop-cat/RooftopCat.jsx:414-438 | lifting the duck finger stands up; lifting the jump finger clears the hold and cuts a rise; other fingers change nothing |
| GameInput.TapIsShortHop | src/rooftop-cat/RooftopCat.jsx:398-426 | a right-half tap while playing leaves a buffered jump with no hold, which makes a short hop |
| GameInput.Suspend | src/rooftop-cat/RooftopCat.jsx:295-300 | hiding the page pauses a playing game and leaves every other state alone |
| GameInput.SuspendThenResume | src/rooftop-cat/RooftopCat.jsx:339-344 | a hidden-page pause followed by any key restores the game exactly |
| GameInput.PausedWorldIsFrozen | src/rooftop-cat/RooftopCat.jsx:339-381 | while paused, no key, touch or release changes the world |

## Left out

- Canvas painting is not modelled: every `draw*` function, `render`, the bay painters, `buildTileCanvas`, `renderLightning` and the canvas helpers in `utils.js`. It is pixel output. The tile cache is modelled only by its key and its flags (`Deck.EnsureCache`, `Deck.BuildDone`).
- Browser plumbing is not modelled: React state hooks, DOM event wiring, pointer capture, `requestAnimationFrame`, `requestIdleCallback`, `localStorage`, and the device-pixel-ratio and mobile-zoom sizing. The view width, view height and world bottom that these produce are inputs (`GameStep.Frame`, and the `w`/`h`/`viewH` parameters). React's `setGameState` is taken to apply at once.
- `Math.random()` is not modelled as a generator. Each draw is an explicit parameter in [0,1), or a stream read at a cursor.
- `Math.pow(sr, 1.15)` in scoring is a host function, constrained only by `GameStep.PowInRange` (it maps [0,1] into [0,1]).
- In `pickGapWidth`, the draw stands for `Math.random()^0.35`. Both lie in [0,1), and a power preserves order.
- `Math.cos` and `Math.sin` in the puff velocities are host functions (`Effects.Trig`).
- Float rounding is not modelled. Numbers are exact reals. `1e12`, `-1e9` and `-Infinity` become named constants or `Option`. `Math.round` and `Math.floor` are integer operations.
- Decorative motion is not modelled: cloud, rain, snow and fog drift and wrap-around, `moveBuildings`, `twinkleWindows`, `earFlickT`, and the positions and velocities of steam and puff particles after they spawn (only buffer bounds and filtering are stated).
- `makeStars`, `makeClouds`, `makeScenery`, `ensureStarFieldSized` and `ensureCloudBankSized` are not modelled. They are star and cloud placement with no stateable rule beyond their counts. The scenery and weather that `resetRun` rebuilds are produced by `Scenery.MakeCityLayers`, `Scenery.MakeSkyline` and `Weather.InitWeather`, and are not threaded through `GameStep.World`.
- The per-frame effect calls of `update` are not composed into the frame: `spawnPuffs` (RooftopCat.jsx:524), `emitSteam` (556), `advanceLightning` (607), `updatePuffs` (718) and `updateSteam` (719). They are modelled on their own as `Effects.SpawnPuffs`, `Effects.EmitSteam`, `Weather.AdvanceLightning`, `Effects.UpdatePuffs` and `Effects.UpdateSteam`, but steam, puff and lightning state is not threaded through `GameStep.World`; `GameStep.Update` only reports the landing-puff intensity in its outcome.
- `Deck.SortByX`: states that the copy is sorted by x and a permutation of the gaps, not that gaps with equal x keep their input order (the stability `Array.prototype.sort` guarantees).
- `GameInput.KeyDown`: the R key advances the weather mode, but regenerating the weather is `Weather.InitWeather`'s job and is not repeated inside the game state.
- `GameInput.Lower`: models `toLowerCase` on ASCII letters only, because every key name the handlers compare against is ASCII.
- `RoofBlocks.UpdateRoofBlocks`: does not promise that the block list stays contiguous. When the remainder after the 4-px strip is at least 4 but under 8, the source drops the right piece, which leaves a hole (`RoofBlocks.SplitWithoutRightPartLeavesHole`). Contiguity is proved for every other split (`RoofBlocks.SplitKeepsContiguous`).
- `Deck.PickThemeIndex`: states [0, count] rather than [0, count). The source's `rand01` divides by 2^32 − 1 and can return exactly 1. `Deck.HashAllOnesPreimage` shows this needs gapId ^ salt == 0xb83b08ac, which has the top bit set; `Deck.ThemeIndexInRange` proves that ids and salts below 2^31 stay below count.
- `Scenery.WindowRow`: the window id r·1000 + c collides between rows once a grid has 1001 or more columns. The model keeps the source's ids and does not claim they are distinct.
- `RoofBlocks.RandomTheme`: block colours are symbolic (a base, or a base shaded by a delta). They become hex strings only through `RoofBlocks.Css`, which is `Utils.Shade`.
- `SeededRng.Next`: only that the state is never zero is proved. Invertibility of the xorshift step and of the FNV hash is not.
- `Obstacles.MakeObstacle`: states the spawn position, grounding and the gate, pylon, tank and vent bounds. It does not state the size range of each plain obstacle (chimney, mast, HVAC unit, shed, billboard) separately.
- `Weather.SpawnBolt`: states the point and branch counts, the downward branches, life and age. It does not bound the bolt's sideways jitter.
- `Scenery.MakeBottomDetail`: bounds the vent count but not the vent positions.
- `seededRng.js` lines 16-19 are not modelled. They are a self-import and a global side effect on `window`.
- `player.js`, `palette.js` and `vite.config.js` are not part of this model. They hold drawing, colour constants and build configuration.
