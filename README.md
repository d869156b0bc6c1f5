# wgpu-life: the double-buffered simulation step, in Dafny

This project models the host-side bookkeeping of a GPU Game of Life. The engine
(`Life`) owns two cell buffers. On each frame one buffer is the *source*, which the
compute shader reads, and the other is the *destination*, which it writes. The frame
number's parity picks the direction (`RenderDir::Forward` on even frames, `Reverse` on
odd ones). That direction decides which buffer plays which role, and which of the two
precomputed bind groups is bound. `step` records one compute dispatch tiled in 8 x 8 work
groups and then advances the frame. `import` uploads an initial grid into the current
source buffer.

Files:

- `basics.dfy`: the Rust integer types `u32` and `usize` (64-bit) as newtypes, and an
  `Option` for checked arithmetic. Dafny checks every `u32`/`usize` operation for range,
  as a Rust debug build does. An operation that would panic there is either excluded by
  a `requires` or returns `None`.
- `directions.dfy`: `RenderDir`, `dir`, `RenderSources` (src/dst over a pair) and
  `RenderMotion` (one object per direction), with the parity, no-alias and swap lemmas.
- `dimensions.dfy`: `Dimensions` with `new`, `area`, `width` and `height`, and the proof
  that the widened product cannot overflow.
- `cell_bytes.dfy`: the `bytemuck::cast_slice` view of a cell grid as bytes, with its
  inverse and both round trips.
- `simulation.dfy`: the `Life` class (`new`, `import`, `step`, `frame_num`, `src_buf`,
  `dst_buf`), the work-group count, the buffer size, and a command encoder reduced to a
  log of compute passes. It ends with `ImportThenTwoFrames`, a client method. It builds a
  4 x 4 engine, imports a grid, runs two frames and asserts what the contracts give a caller.

Modelling choices:

- Cells are `f32` in the source. Here each cell is its IEEE-754 bit pattern (`bv32`),
  because the host side only moves cells around as bytes. Buffers are `array<bv8>` of
  `area * 4` bytes. They start zero-filled, as wgpu guarantees for new buffers. Bytes are
  little-endian, the order of the targets the program runs on.
- Device objects are identity records: the parameter block, the texture and the bind
  groups. The compute pipeline is always the same one, so it is not recorded.
- The constructor's contract fixes `frame_num` at 0 and `Step`'s contract raises it by
  exactly 1, so after k steps `FrameNum()` is k.
- The source computes `width + WORKGROUP_SIZE.0 - 1` as `(width + 8) - 1`. The checked
  addition therefore overflows once `width + 8` exceeds `u32::MAX`, not only once
  `width + 7` does. `GroupCount` and `Step` use that exact boundary, and
  `GroupCountExamples` shows it: a width of 0xFFFF_FFF7 can be dispatched, while
  0xFFFF_FFF8 cannot, even though 0xFFFF_FFF8 + 7 still fits.

## Model

| member | source | states |
|---|---|---|
| `Directions.Dir` | src/directions.rs:10-16 | the direction repeats every two frames; with `DirIsParity` and `DirAlternates` below it is Forward exactly on even frames |
| `Directions.DirIsParity` | src/directions.rs:10-16 | `dir(n)` is Forward exactly when n is even and Reverse exactly when n is odd |
| `Directions.DirAlternates` | src/directions.rs:10-16 | consecutive frames have opposite directions; frames two apart have the same one |
| `Directions.DirAfter` | src/directions.rs:10-16 | k frames later the direction has flipped exactly when k is odd |
| `Directions.WrappingIncrementAlternates` | src/life.rs:223 | had `frame_num += 1` wrapped at 2^64 instead of panicking, the directions would still alternate |
| `Directions.SlotsNeverAlias` | src/directions.rs:36-54 | for each direction, src and dst pick different slots, together covering both; the slots swap between directions |
| `Directions.GetSlotIsSrcSlot` | src/directions.rs:76-84 | `RenderMotion::get` indexes the same slot as `RenderSources::src` for every direction |
| `Directions.RenderSources.New` | src/directions.rs:25-34 | the Forward-generated object goes in slot 0 and the Reverse one in slot 1; `src(d)` is what was generated for d, and `dst(d)` is what was generated for the other direction |
| `Directions.RenderSources.Src` | src/directions.rs:36-54 | `src(d)` is `dst` of the opposite direction; when the two objects are distinct, `src(d)` is never `dst(d)` |
| `Directions.RenderSources.Dst` | src/directions.rs:46-54 | `dst(d)` is the slot that `src` reads in the other direction |
| `Directions.HandOff` | src/directions.rs:10-54 | the object written in frame n is the object read in frame n+1, and the reverse |
| `Directions.RenderMotion.New` | src/directions.rs:65-74 | `get(d)` afterwards returns exactly the object generated for d |
| `Directions.RenderMotion.Get` | src/directions.rs:76-84 | `get(d)` reads the slot that `RenderSources::src(d)` reads |
| `Directions.MotionFollowsSource` | src/directions.rs:76-84 | over the same pair or generator, `get(d)` returns the same object as `src(d)` |
| `Dimensions.Dimensions.New` | src/dimensions.rs:8-28 | `width()` and `height()` return exactly the values passed to `new` |
| `Dimensions.Dimensions.Width` | src/dimensions.rs:22-24 | the width times the height is the area |
| `Dimensions.Dimensions.Height` | src/dimensions.rs:26-28 | the width times the height is the area |
| `Dimensions.Dimensions.Area` | src/dimensions.rs:18-20 | the area is width times height, with no overflow in `usize` and at most (2^32-1)^2; it is zero exactly when width or height is zero |
| `Dimensions.WidenedProductFits` | src/dimensions.rs:19 | the product of two widened `u32` values is below 2^64 |
| `Dimensions.AreaSymmetric` | src/dimensions.rs:19 | swapping width and height gives the same area |
| `CellBytes.CastSlice` | src/life.rs:186 | the byte image of the cells has 4 bytes per cell, and bytes 4i to 4i+3 are the little-endian bytes of cell i |
| `CellBytes.Cells` | src/life.rs:186 | a byte buffer of whole cells holds one cell per 4 bytes |
| `CellBytes.CastSliceRoundTrip` | src/life.rs:194-199 | reading back the bytes copied by `import` yields exactly the imported cells |
| `CellBytes.CellsRoundTrip` | src/life.rs:186 | every byte buffer of whole cells is the byte image of the cells it holds |
| `Simulation.GroupCount` | src/life.rs:213-216 | the checked `(dim + 8 - 1) / 8` fails exactly when `dim + 8` overflows `u32`; otherwise it is the ceiling: groups*8 >= dim, (groups-1)*8 < dim, and zero exactly for an empty side |
| `Simulation.GroupCountExamples` | src/life.rs:213-216 | a 1024 x 768 grid dispatches 128 x 96 groups; width 10 dispatches 2; width 0xFFFF_FFF7 is the largest that does not overflow |
| `Simulation.CellBufSize` | src/life.rs:46 | one cell buffer is `4 * width * height` bytes; the `usize` multiplication fails exactly when that reaches 2^64 |
| `Simulation.BindGroupFor` | src/life.rs:120-143 | the bind group of direction d reads `src(d)` and writes `dst(d)`, which is the buffer the other direction reads; it never reads and writes the same buffer when the two buffers are distinct |
| `Simulation.Life.constructor` | src/life.rs:32-152 | two fresh, distinct, zero-filled buffers of `4 * area` bytes, Forward in slot 0; each direction's bind group reads that direction's src buffer and writes its dst buffer, with the same params and texture; frame 0 |
| `Simulation.Life.FrameNum` | src/life.rs:227-229 | the frame number's parity alone decides which buffer is the current source and which the destination; the constructor sets it to 0 and `Step` raises it by exactly 1 |
| `Simulation.Life.SrcBuf` | src/life.rs:232-234 | the current source buffer is never the current destination buffer, and both have the same size |
| `Simulation.Life.DstBuf` | src/life.rs:237-239 | the current destination buffer is the source buffer of the next frame |
| `Simulation.Life.Import` | src/life.rs:173-202 | needs exactly `area` cells; the whole current source buffer becomes their byte image and reads back as those cells; the frame number and the other buffer are unchanged |
| `Simulation.Life.Step` | src/life.rs:204-224 | records one pass using the bind group of the pre-increment direction, which reads the old `src_buf` and writes the old `dst_buf`, with `ceil(w/8) x ceil(h/8) x 1` groups; the frame number rises by exactly 1 and nothing else changes; afterwards src and dst have swapped |

## Left out

- GPU object creation and submission are not modelled: the shader module, bind-group layout, pipeline layout, compute pipeline, import staging buffer, command-encoder finishing and `queue.submit`. These are foreign calls into wgpu. The layout's `min_binding_size` equals the buffer size, and `Valid()` captures that through the buffer lengths.
- The cell-update rule and its edge policy are not modelled. They live in `life.wgsl`, which is not part of this model. So `step` does not model what the dispatch writes; it only records which buffers the pass reads and writes.
- `Simulation.Life.Import`: the upload is modelled as taking effect at once. In the source the copy is submitted to the device queue and executes in queue order.
- `Simulation.Life.Step`: the dispatch is recorded and not executed, as in the source, where it runs only when the caller submits the encoder.
- `Simulation.Life.Step`: the contract assumes a debug build. A release build wraps instead of panicking. The addition `width + 8` wraps from 0xFFFF_FFF8 on; widths of 0xFFFF_FFF9 and above then get zero work groups (0xFFFF_FFF8 itself still gets the right count). `frame_num` wraps at 2^64, which `WrappingIncrementAlternates` shows to be harmless for the parity. Neither the wrapped dispatch nor the wrapped frame number is modelled.
- `Simulation.Life.constructor`: the requirement that `area * 4` fits in `usize` also assumes a debug build. In a release build the product wraps and both buffers come out undersized; that case is not modelled.
- The empty `_update` and `_resize` stubs (src/life.rs:155-170) have no behaviour and are not modelled.
- `LifeParams`, `Texture`, the renderer, the debug read-back buffer and `main` are not modelled. Their contents are device uploads, a texture wrapper, render-pass setup, blocking I/O and a window event loop. The engine sees the parameter block and texture only as identities.
- Cells are not modelled as floating point: they are `f32` bit patterns, because the host side never does arithmetic on them.
