# esp_effects in Dafny

A model of the four demo effects of esp_effects and of the loop that drives
them on an ESP32. Each effect keeps global state between frames and exposes
`init`, `animate` and `render` (plus `close` for the two that allocate):

- **metaballs** (`Metaballs`): a static pool of 16 balls, two of them in use,
  placed by `rand()` and bounced off the display edges; the render shades 2x2
  blocks by four bands of a field sum.
- **palette plasma** (`Plasma`): a 256-entry palette and a byte buffer with one
  entry per pixel, of which only the entries at even coordinates are written,
  cycled by 6 modulo 256 per frame, and drawn through the palette.
- **rotozoom** (`Rotozoom`): an angle that turns by 2 degrees modulo 360,
  indexing 360-entry sine and cosine tables, and a render that samples the
  `head` image at rotated and zoomed coordinates reduced modulo its size.
- **plane deform** (`Deform`): a lookup table of two `int8_t` entries per pixel,
  filled row by row, and a render that walks it in the same order, adding a
  `uint32_t` frame counter and folding the sum into the texture with
  `abs(...) %`.
- **the demo** (`App`): `switch_task` closes the outgoing effect (only plasma
  and deform have a close), moves `effect` to `(effect + 1) % 4` and runs the
  incoming effect's init; `demo_task` animates, waits for vsync and renders
  the active effect, then sets `RENDER_FINISHED`; `flush_task` consumes
  `RENDER_FINISHED` and sets `FLUSH_STARTED`.

Each effect's globals are a class whose fields the methods update in place
(`balls`, `palette`/`plasma`, `sinlut`/`coslut`/`angle`, `lut`/`frame`), with
C's fixed-width types as subset types and their wrap-around written out
(`CTypes`). A render returns the sequence of display-library calls it makes
(`Sink.Draw`); the nested x/y loops of every render are described once, by
`Sink.Scan`, the calls of an outer loop over lines of an inner loop.
Display and texture sizes are constructor parameters. The float computations
(the field sum, the palette and noise sinusoids, sine and cosine, the polar
map) are function-valued parameters returning values in the range of the C
cast. The rotozoom rotation is such a parameter too, and `Rotozoom.Rotation`
states its formula over the reals with the cast to `uint8_t` as a parameter,
so that the properties of the formula are proved separately.

Rotozoom casts each rotated and zoomed product to `uint8_t` before taking
`% HEAD_WIDTH` or `% HEAD_HEIGHT`, so the texture coordinates are never
negative and no absolute value or fold is involved.

## Model

| member | source | states |
|---|---|---|
| Metaballs.SpawnRanges | main/metaballs.c:58-65 | init gives each ball in use a radius in [22, 53], both velocity components in [3, 7], a position inside the display and color 0xffff, so the ball starts settled |
| Metaballs.Effect.constructor | main/metaballs.c:46-53 | the static pool holds 16 zeroed balls |
| Metaballs.Effect.Init | main/metaballs.c:55-66 | balls 0 and 1 are spawned from five rand() results each, in the order radius, x, y, x-velocity, y-velocity; balls 2 to 15 are untouched; the balls in use are settled |
| Metaballs.BounceRule | main/metaballs.c:71-82 | without int16 wrap-around the position moves by the velocity, and the velocity is negated exactly when the new position is below 0 or above the display size; a position equal to the size does not bounce |
| Metaballs.MoveKeepsSpeed | main/metaballs.c:70-83 | animate only flips signs: both speeds, the radius and the color are kept |
| Metaballs.MoveAxisSettled | main/metaballs.c:70-83 | a settled axis stays settled, and its position is at most 7 outside [0, size] |
| Metaballs.OutsideReturns | main/metaballs.c:70-83 | a settled ball outside the box on an axis is heading back and is inside after the next animate, without bouncing |
| Metaballs.MoveNSettled | main/metaballs.c:58-83 | after any number of animate calls following init, every ball in use is settled and within 7 of the box |
| Metaballs.Effect.Animate | main/metaballs.c:68-84 | balls 0 and 1 take one bounce step, the rest of the pool is unchanged, and settled balls stay settled |
| Metaballs.Band | main/metaballs.c:106-114 | the if-chain picks black above 0.65, white in (0.5, 0.65], green in (0.4, 0.5] and the background at or below 0.4 |
| Metaballs.BandMonotone | main/metaballs.c:106-114 | a larger field sum never selects a lower band |
| Metaballs.FrameIndex | main/metaballs.c:95-120 | the k-th call of a render fills the 2x2 block at row k / cols, column k % cols of the block grid |
| Metaballs.FrameInside | main/metaballs.c:95-120 | on a display of even sizes every block of a render lies inside the display |
| Metaballs.FrameTiles | main/metaballs.c:95-120 | on a display of even sizes every pixel is covered by the block in row py / 2, column px / 2, and by no other block |
| Metaballs.CoverAt | main/metaballs.c:95-120 | only one block of a render covers a given pixel |
| Metaballs.Effect.Render | main/metaballs.c:87-123 | the calls are the blocks of the whole display, row by row, each shaded by the band of the field of the balls in use at its top-left pixel |
| Metaballs.Effect.Row | main/metaballs.c:96-121 | the inner loop makes the calls of one row of blocks, left to right |
| Plasma.SampledAt | main/plasma.c:54-55 | the entry at (x, y) is one the STEP-2 loops visit exactly when x and y are both even |
| Plasma.Cycle | main/plasma.c:88-91 | `color += SPEED` on a uint8_t followed by `color %= 256` adds 6 modulo 256 |
| Plasma.Animated | main/plasma.c:82-96 | animate adds 6 modulo 256 to every entry at even coordinates and leaves the entries at an odd x or odd y unchanged |
| Plasma.AnimatedNAt | main/plasma.c:84-94 | n animate calls add 6n modulo 256 to every sampled entry and leave the others alone |
| Plasma.Period | main/plasma.c:90-91 | 128 animate calls restore the buffer |
| Plasma.LeastPeriod | main/plasma.c:90-91 | no positive number of calls below 128 restores a sampled entry |
| Plasma.FrameAt | main/plasma.c:71-77 | the call for sampled point (2i, 2j) comes at position i * rows + j, is inside the display and puts the palette color of the index stored at `x + DISPLAY_WIDTH * y` |
| Plasma.FrameIndex | main/plasma.c:71-77 | every call of a render is a put_pixel at even coordinates inside the display with the palette color of the index stored there |
| Plasma.Effect.constructor | main/plasma.c:34-35 | before the first init neither buffer is allocated |
| Plasma.Effect.Init | main/plasma.c:40-67 | both buffers are fresh; all 256 palette entries hold the two sinusoid bytes and blue 64; the buffer holds the noise at every even (x, y) and whatever the allocation held elsewhere |
| Plasma.Effect.NewPalette | main/plasma.c:43-52 | the palette loop fills all 256 entries, blue always 64 |
| Plasma.Effect.NewBuffer | main/plasma.c:54-66 | the fill loops write the noise to the sampled entries only |
| Plasma.Effect.Stamp | main/plasma.c:54-66 | the x-then-y fill loops leave the buffer stamped with the noise at every sampled entry |
| Plasma.Effect.StampColumn | main/plasma.c:55-65 | the inner fill loop writes every second row of one column |
| Plasma.Effect.Animate | main/plasma.c:82-96 | the buffer after the loops is `Animated` of the buffer before |
| Plasma.Effect.AnimateColumn | main/plasma.c:85-94 | the inner loop cycles every second row of one column in place |
| Plasma.Effect.Render | main/plasma.c:69-80 | the calls are one put_pixel per sampled point, column by column, with the palette color of the stored index |
| Plasma.Effect.Column | main/plasma.c:72-78 | the inner loop makes the calls of one column, top to bottom |
| Plasma.Effect.Close | main/main.c:139-141 | after the close neither buffer is allocated |
| Rotozoom.Turn | main/rotozoom.c:78 | the angle stays below 360 and advances by 2, wrapping to 0 or 1 past 359 |
| Rotozoom.TurnNIs | main/rotozoom.c:78 | n animate calls advance the angle by 2n modulo 360 |
| Rotozoom.AlwaysEven | main/rotozoom.c:36-78 | from the zeroed static the angle is always even |
| Rotozoom.Period | main/rotozoom.c:78 | 180 animate calls restore the angle and no fewer do |
| Rotozoom.RotationHalfTurn | main/rotozoom.c:55-64 | negating sine and cosine leaves both rotated, zoomed products unchanged |
| Rotozoom.RotationAtZero | main/rotozoom.c:55-64 | with sine 0 the zoom is 0 and both products are the cast of 0 |
| Rotozoom.TexCoord | main/rotozoom.c:63-65 | u and v lie inside the head image for every byte the casts give |
| Rotozoom.FrameAt | main/rotozoom.c:59-71 | the square at (2i, 2j) is inside the display and comes at position i * rows + j |
| Rotozoom.ZeroZoom | main/rotozoom.c:59-71 | when the rotation sends every point to (0, 0), every square has the head's top-left color |
| Rotozoom.ZeroSine | main/rotozoom.c:55-71 | with sine 0 (angle 0, or the zeroed tables before init) every square has the head's top-left color |
| Rotozoom.HalfTurn | main/rotozoom.c:55-71 | a rotation that ignores a joint sign flip of sine and cosine draws the same frame for both |
| Rotozoom.FloatHalfTurn | main/rotozoom.c:55-71 | the rotation formula, over the reals, draws the same frame for (s, c) and (-s, -c) |
| Rotozoom.Effect.constructor | main/rotozoom.c:36-38 | before the first init the angle is 0 and both 360-entry tables are zero |
| Rotozoom.Effect.Init | main/rotozoom.c:40-47 | entries 0 to 359 of both tables hold the sine and cosine of their degree; the angle is left alone |
| Rotozoom.Effect.Animate | main/rotozoom.c:76-79 | the angle becomes `Turn` of the old angle |
| Rotozoom.Effect.Render | main/rotozoom.c:49-74 | the calls are the squares of the frame for the table entries at the current angle, column by column |
| Rotozoom.Effect.Column | main/rotozoom.c:60-72 | the inner loop makes the calls of one column, top to bottom |
| Deform.Targets | main/deform.c:90-91 | each stored entry is C's truncating remainder of the int8_t cast by the texture size: smaller in magnitude than the size, and not negative for a non-negative cast |
| Deform.Table | main/deform.c:45-97 | the table has `DISPLAY_WIDTH * DISPLAY_HEIGHT * 2` entries |
| Deform.TableAt | main/deform.c:50-95 | pixel (i, j) lands at entries `2 * (j * W + i)` (tx) and the one after it (ty) |
| Deform.Fold | main/deform.c:107-111 | the folded coordinate is inside the texture for every entry and frame value |
| Deform.FoldSixteenBits | main/deform.c:107-108 | the uint32_t sum is invisible: the fold is that of the int16_t of the plain sum |
| Deform.FoldShift | main/deform.c:107-111 | frame counters that differ by a multiple of 2^16 fold every entry alike |
| Deform.Picture | main/deform.c:101-123 | a render makes one call per display pixel |
| Deform.PictureAt | main/deform.c:101-120 | pixel (x, y) is drawn at position `y * W + x` from entries `2 * (y * W + x)` and the one after it |
| Deform.RenderAfterInit | main/deform.c:45-123 | render reads the table in the order init wrote it: after init, pixel (x, y) is drawn from the polar map at (x, y) |
| Deform.Advance | main/deform.c:125-128 | the counter grows by 2 modulo 2^32, and by exactly 2 when it does not wrap |
| Deform.AdvanceNIs | main/deform.c:127 | n animate calls add 2n modulo 2^32 |
| Deform.Period | main/deform.c:107-127 | 32768 animate calls bring back the same picture, whatever the table |
| Deform.Effect.constructor | main/deform.c:41-43 | before the first init the counter is 0 and no table is allocated |
| Deform.Effect.Init | main/deform.c:45-97 | a fresh table is allocated and filled completely; the frame counter is not reset |
| Deform.Effect.NewTable | main/deform.c:48-96 | the `ptr` walk writes tx then ty for each pixel, row by row, exactly W * H * 2 entries |
| Deform.Effect.Animate | main/deform.c:125-128 | the counter becomes `Advance` of the old counter; the table is untouched |
| Deform.Effect.Render | main/deform.c:99-123 | the calls are the picture of the current table and counter |
| Deform.Effect.Close | main/deform.c:130-133 | the table is released and the counter survives |
| App.NextEffect | main/main.c:150 | the next effect is below 4, 0 exactly after 3, and one more otherwise |
| App.SwitchNIs | main/main.c:150 | n switches advance the effect by n modulo 4 |
| App.Rotation | main/main.c:150 | four switches restore the effect and no fewer do |
| App.FlushPass | main/main.c:84-98 | a flush pass flushes exactly when RENDER_FINISHED is set, clearing it and setting FLUSH_STARTED; otherwise nothing changes; other bits are kept |
| App.Vsync | main/main.c:109-121 | with double buffering a set FLUSH_STARTED is seen and cleared; otherwise nothing changes; other bits are kept |
| App.NextBalanced | main/main.c:79-214 | every step of the flush loop, the vsync wait or the end of a render keeps the flag counts balanced |
| App.FlushBalanced | main/main.c:84-98 | a flush pass keeps the counts balanced |
| App.VsyncBalanced | main/main.c:109-121 | a vsync wait keeps the counts balanced |
| App.RenderBalanced | main/main.c:213-214 | setting RENDER_FINISHED after a render keeps the counts balanced |
| App.Handshake | main/main.c:84-214 | in every interleaving, flushes never outnumber finished frames plus the initial flag, and vsync sightings never outnumber flushes |
| App.Demo.constructor | main/main.c:63-188 | the demo starts on effect 0 with RENDER_FINISHED set once before the first frame |
| App.Demo.Switch | main/main.c:135-169 | the effect becomes `(effect + 1) % 4`; only plasma and deform are closed when left; exactly the init of the new effect runs (for metaballs, balls 2 to 15 are untouched) and the other effects keep their state |
| App.Demo.Flush | main/main.c:84-98 | one pass of flush_task is `FlushPass` on the event bits |
| App.Demo.WaitForVsync | main/main.c:109-121 | wait_for_vsync is `Vsync` on the event bits |
| App.Demo.Frame | main/main.c:190-214 | the active effect animates, the vsync wait runs, the same effect renders, and RENDER_FINISHED is set; the inactive effects' state, the unused balls of the pool and the deform table are unchanged |

## Left out

- Float computations: the metaballs field sum, the plasma palette and noise sinusoids, the sine and cosine tables and the deform polar map are parameters of the effects, with no claim about their values; the deform centre pixel's division by zero and out-of-range float casts are inside them.
- Rotozoom.Effect.Render: the effect's `rotate` parameter is not required to be `Rotozoom.Rotator` of a cast, so the frame is proved for any rotation; `Rotozoom.FloatHalfTurn` and `Rotozoom.ZeroSine` state the properties of the formula over the reals.
- Rotozoom.Rotation: the formula is computed over the reals; the float rounding of the products and of `z = s * 1.2` (a double rounded to float) is not modelled.
- Rotozoom.HalfTurn: the half-turn repeat of the animation would also need the table entries half a turn apart to be exact negations, which they are not in floats (`coslut[90]` and `coslut[270]` differ in magnitude), so no repeat of the animation is claimed.
- rand() is a sequence of results passed to init; how the C library produces them is not modelled.
- malloc never fails in the model; what a fresh plasma buffer holds is a parameter, and the deform table is completely written before it is read.
- The display library (hagl) is a record of the calls each render makes; `hagl_clear_screen`, `hagl_flush`, clip windows, text output and colors other than their RGB triple are not modelled.
- The `if (1 == PIXEL_SIZE)` and `if (1 == STEP)` branches: only the branch the constants select is modelled (fill_rectangle for metaballs and rotozoom, put_pixel for deform).
- FreeRTOS: tasks are atomic steps, not concurrent threads; task creation, priorities, delays, `ets_delay_us` and the 10 second vsync timeout (a wait that times out counts as not seeing the flag) are not modelled.
- The fps and bytes-per-second counters and console logging are not modelled.
- Hardware bring-up in app_main is not modelled.
- The `head` image (head.h) is not part of this model; it is a read-only texture of positive size given as a parameter, as are the display sizes.
- plasma_close's definition is not part of this model; it is taken to release both plasma buffers, as deform_close releases its table.
- main/metaballs.h declares a settings struct and an init with a parameter that the metaballs code does not use; it is not modelled.
- Loop counters are `uint16_t` in C and natural numbers here: display sizes are taken to be below 65535, so the counters never wrap.
- Metaballs.DisplayFits: display sizes are also taken to leave room for a position one velocity step beyond the edge in an int16_t.
- The effect switch's `effect` is a `uint8_t` that only ever holds 0 to 3; its wrap-around is never reached.
