/** The host side of the double-buffered Game of Life step (src/life.rs): two cell
    buffers whose read and write roles alternate with the frame number, one bind group
    per direction wiring them into the compute pipeline, and a step that records one
    tiled dispatch and advances the frame. Device objects are identity records and the
    command encoder is a log of the compute passes recorded into it. */
module Simulation {
  import opened Basics
  import opened Directions
  import opened Dimensions
  import opened CellBytes

  /** `WORKGROUP_SIZE`: cells per work group along x and y. */
  const WorkgroupSize: (u32, u32) := (8, 8)

  /** `mem::size_of::<f32>()`. */
  const F32Size: usize := 4

  /** The number of work groups covering `dim` cells with groups of `tile` cells, computed
      as `(dim + tile - 1) / tile` in `u32`. The addition `dim + tile` comes first and
      panics on overflow, which is `None` here. Otherwise the result is the ceiling of
      `dim / tile`: enough groups to cover every cell, and none lying wholly outside. */
  function GroupCount(dim: u32, tile: u32): (r: Option<u32>)
    requires tile > 0
    ensures r.Some? <==> dim as int + tile as int < U32_LIMIT
    ensures r.Some? ==> r.value as int * tile as int >= dim as int
    ensures r.Some? ==> (r.value as int - 1) * tile as int < dim as int
    ensures r.Some? ==> (r.value == 0 <==> dim == 0)
  {
    if dim as int + tile as int >= U32_LIMIT then None
    else
      var q := (dim + tile - 1) / tile;
      CeilingDivision(dim as int, tile as int);
      Some(q)
  }

  /** `(n + t - 1) / t` is the least multiple count covering `n`. */
  lemma CeilingDivision(n: nat, t: nat)
    requires t > 0
    ensures ((n + t - 1) / t) * t >= n
    ensures ((n + t - 1) / t - 1) * t < n
    ensures (n + t - 1) / t == 0 <==> n == 0
  {
    var q, r := (n + t - 1) / t, (n + t - 1) % t;
    assert n + t - 1 == q * t + r;
    assert q * t >= n by {
      assert q * t == n + t - 1 - r;
    }
    assert (q - 1) * t < n by {
      assert (q - 1) * t == q * t - t;
    }
  }

  /** The work groups dispatched for a `1024 x 768` grid and for a `10 x 10` grid. */
  lemma GroupCountExamples()
    ensures GroupCount(1024, 8) == Some(128) && GroupCount(768, 8) == Some(96)
    ensures GroupCount(10, 8) == Some(2)
    ensures GroupCount(0xFFFF_FFF7, 8).Some? && GroupCount(0xFFFF_FFF8, 8).None?
  {
  }

  /** `cell_bufsize`: the byte size of one cell buffer, `area * size_of::<f32>()` in
      `usize`; `None` where that multiplication overflows (a panic in the source). The
      size is four bytes per cell of the grid. */
  function CellBufSize(dimensions: Dimensions): (r: Option<usize>)
    ensures r.Some? <==> 4 * (dimensions.width as int * dimensions.height as int) < USIZE_LIMIT
    ensures r.Some? ==> r.value as int == 4 * (dimensions.width as int * dimensions.height as int)
  {
    if dimensions.Area() as int * F32Size as int >= USIZE_LIMIT then None
    else Some(dimensions.Area() * F32Size)
  }

  /** The uniform parameter block bound at binding 0 (`LifeParams`), by identity. */
  datatype LifeParams = LifeParams(id: nat)

  /** The output texture bound at binding 3 (`Texture`), by identity. */
  datatype Texture = Texture(id: nat)

  /** A compute bind group of the life layout: `params` at binding 0, the read-only
      `cellSrc` buffer at binding 1, the writable `cellDst` buffer at binding 2 and the
      write-only texture at binding 3. */
  datatype BindGroup = BindGroup(params: LifeParams, cellSrc: array<bv8>, cellDst: array<bv8>, texture: Texture)

  /** The bind group that `Life::new` builds for direction `d`: it writes the buffer the
      other direction reads, and never writes the buffer it reads when the two buffers
      are distinct. */
  function BindGroupFor(params: LifeParams, cells: RenderSources<array<bv8>>, texture: Texture, d: RenderDir): (g: BindGroup)
    ensures g.cellDst == cells.Src(d.Flip()) && g.cellSrc == cells.Dst(d.Flip())
    ensures cells.pair.slot0 != cells.pair.slot1 ==> g.cellSrc != g.cellDst
  {
    BindGroup(params, cells.Src(d), cells.Dst(d), texture)
  }

  /** A compute pass as `step` records it: the bind group set at index 0 and the
      dispatch size. */
  datatype ComputePass = ComputePass(bindGroup: BindGroup, xGroups: u32, yGroups: u32, zGroups: u32)

  /** `wgpu::CommandEncoder`, reduced to the log of compute passes recorded into it. */
  class CommandEncoder {
    var passes: seq<ComputePass>

    constructor ()
      ensures passes == []
    {
      passes := [];
    }
  }

  /** `Life`: the simulation engine state. */
  class Life {
    var bindGroups: RenderMotion<BindGroup>
    var dimensions: Dimensions
    var cellBuffers: RenderSources<array<bv8>>
    var frameNum: usize

    /** The two cell buffers are distinct, each holds `area * 4` bytes, and the bind group
        of each direction reads that direction's source buffer and writes its
        destination buffer. */
    ghost predicate Valid()
      reads this
    {
      CellBufSize(dimensions).Some?
      && cellBuffers.pair.slot0 != cellBuffers.pair.slot1
      && cellBuffers.pair.slot0.Length == CellBufSize(dimensions).value as int
      && cellBuffers.pair.slot1.Length == CellBufSize(dimensions).value as int
      && (forall d :: bindGroups.Get(d).cellSrc == cellBuffers.Src(d) && bindGroups.Get(d).cellDst == cellBuffers.Dst(d))
      && bindGroups.Get(Forward).params == bindGroups.Get(Reverse).params
      && bindGroups.Get(Forward).texture == bindGroups.Get(Reverse).texture
    }

    /** `Life::new`: two fresh, zero-filled buffers of `area * 4` bytes, the Forward one
        in slot 0; one bind group per direction wiring the parameters, that direction's
        (source, destination) buffers and the texture; frame 0. */
    constructor (dimensions: Dimensions, params: LifeParams, texture: Texture)
      requires CellBufSize(dimensions).Some?
      ensures Valid()
      ensures this.dimensions == dimensions && frameNum == 0
      ensures fresh(cellBuffers.pair.slot0) && fresh(cellBuffers.pair.slot1)
      ensures cellBuffers.pair.slot0.Length == 4 * dimensions.Area() as int
      ensures forall i :: 0 <= i < cellBuffers.pair.slot0.Length ==> cellBuffers.pair.slot0[i] == 0
      ensures forall i :: 0 <= i < cellBuffers.pair.slot1.Length ==> cellBuffers.pair.slot1[i] == 0
      ensures forall d :: bindGroups.Get(d) == BindGroupFor(params, cellBuffers, texture, d)
    {
      var cellBufSize := CellBufSize(dimensions).value;
      var forward := new bv8[cellBufSize as int](_ => 0);
      var reverse := new bv8[cellBufSize as int](_ => 0);
      var cells := RenderSources.New((d: RenderDir) => if d == Forward then forward else reverse);
      this.bindGroups := RenderMotion.New((d: RenderDir) => BindGroupFor(params, cells, texture, d));
      this.dimensions := dimensions;
      this.cellBuffers := cells;
      this.frameNum := 0;
    }

    /** `frame_num`: the number of steps taken so far. Its parity alone decides the
        current roles of the two buffers. */
    function FrameNum(): (n: usize)
      reads this
      ensures SrcBuf() == cellBuffers.Src(if n % 2 == 0 then Forward else Reverse)
      ensures DstBuf() == cellBuffers.Dst(if n % 2 == 0 then Forward else Reverse)
    {
      frameNum
    }

    /** `src_buf`: the buffer the next step reads. It is never the buffer the next step
        writes, and both have the same size. */
    function SrcBuf(): (b: array<bv8>)
      reads this
      ensures Valid() ==> b != DstBuf() && b.Length == DstBuf().Length
    {
      cellBuffers.Src(Dir(frameNum))
    }

    /** `dst_buf`: the buffer the next step writes, which is the buffer the step after
        it reads. */
    function DstBuf(): (b: array<bv8>)
      reads this
      ensures frameNum < USIZE_MAX ==> b == cellBuffers.Src(Dir(frameNum + 1))
    {
      cellBuffers.Dst(Dir(frameNum))
    }

    /** `import`: the grid must have exactly `area` cells (the source asserts it); their
        `4 * area` bytes overwrite the whole current source buffer, which then holds
        exactly these cells. Neither the frame number nor the other buffer changes. */
    method Import(cells: seq<bv32>)
      requires Valid()
      requires |cells| == dimensions.Area() as int
      modifies SrcBuf()
      ensures SrcBuf()[..] == CastSlice(cells)
      ensures Cells(SrcBuf()[..]) == cells
      ensures frameNum == old(frameNum) && unchanged(DstBuf())
    {
      var bytes := CastSlice(cells);
      var nextSrc := cellBuffers.Src(Dir(frameNum));
      forall i | 0 <= i < |bytes| {
        nextSrc[i] := bytes[i];
      }
      CastSliceRoundTrip(cells);
    }

    /** `step`: records one compute pass using the bind group of the direction of the
        current (pre-increment) frame, which reads `src_buf()` and writes `dst_buf()`, with
        `ceil(width / 8) x ceil(height / 8) x 1` work groups; then advances the frame by
        one, so the buffer just written becomes the next step's source. Nothing but the
        frame number and the encoder changes. The source panics where `width + 8`,
        `height + 8` or `frame_num + 1` overflow, so those are excluded. */
    method Step(encoder: CommandEncoder)
      requires Valid()
      requires GroupCount(dimensions.Width(), WorkgroupSize.0).Some?
      requires GroupCount(dimensions.Height(), WorkgroupSize.1).Some?
      requires frameNum < USIZE_MAX
      modifies this`frameNum, encoder
      ensures Valid()
      ensures frameNum == old(frameNum) + 1
      ensures dimensions == old(dimensions) && cellBuffers == old(cellBuffers) && bindGroups == old(bindGroups)
      ensures encoder.passes == old(encoder.passes) + [ComputePass(
                bindGroups.Get(Dir(old(frameNum))),
                GroupCount(dimensions.width, WorkgroupSize.0).value,
                GroupCount(dimensions.height, WorkgroupSize.1).value,
                1)]
      ensures bindGroups.Get(Dir(old(frameNum))).cellSrc == old(SrcBuf())
      ensures bindGroups.Get(Dir(old(frameNum))).cellDst == old(DstBuf())
      ensures SrcBuf() == old(DstBuf()) && DstBuf() == old(SrcBuf())
    {
      var xdim := dimensions.Width() + WorkgroupSize.0 - 1;
      var xgroups := xdim / WorkgroupSize.0;
      var ydim := dimensions.Height() + WorkgroupSize.1 - 1;
      var ygroups := ydim / WorkgroupSize.1;
      var dir := Dir(frameNum);

      encoder.passes := encoder.passes + [ComputePass(bindGroups.Get(dir), xgroups, ygroups, 1)];

      HandOff(cellBuffers, frameNum);
      frameNum := frameNum + 1;
    }
  }

  /** A client on a 4 x 4 grid: construction, import, then two frames (the program
      itself steps once per rendered frame). What a caller learns from the contracts
      alone: the imported cells are what the first step reads, the first step's output
      is what the second step reads, and after two steps the roles are back where they
      started. */
  method ImportThenTwoFrames(initial: seq<bv32>)
    requires |initial| == 16
  {
    var dim := Dimensions.New(4, 4);
    var life := new Life(dim, LifeParams(0), Texture(1));
    life.Import(initial);
    var encoder := new CommandEncoder();
    var firstSrc, firstDst := life.SrcBuf(), life.DstBuf();
    assert Cells(firstSrc[..]) == initial;
    life.Step(encoder);
    assert life.FrameNum() == 1 && life.SrcBuf() == firstDst;
    assert encoder.passes[0].bindGroup.cellSrc == firstSrc;
    assert encoder.passes[0].xGroups == 1 && encoder.passes[0].yGroups == 1;
    life.Step(encoder);
    assert life.FrameNum() == 2 && life.SrcBuf() == firstSrc;
    assert encoder.passes[1].bindGroup.cellSrc == firstDst;
  }
}
