/** Keeping the use of a pair of objects consistent: which one is read and which one is
    written in a given frame (src/directions.rs). */
module Directions {
  import opened Basics

  /** `RenderDir`: the role assignment of a frame. */
  datatype RenderDir = Forward | Reverse {
    /** The other direction. */
    function Flip(): RenderDir {
      if Forward? then Reverse else Forward
    }
  }

  /** `RenderDir::dir`: the direction used by frame `frameNum`; it repeats every two
      frames. */
  function Dir(frameNum: usize): (d: RenderDir)
    ensures frameNum >= 2 ==> d == Dir(frameNum - 2)
  {
    if frameNum % 2 == 0 then Forward else Reverse
  }

  /** Forward exactly on even frames, Reverse exactly on odd ones. */
  lemma DirIsParity(n: usize)
    ensures Dir(n) == Forward <==> n % 2 == 0
    ensures Dir(n) == Reverse <==> n % 2 == 1
  {
  }

  /** Consecutive frames use opposite directions; frames two apart use the same one. */
  lemma DirAlternates(n: usize)
    requires n as int + 1 < USIZE_LIMIT
    ensures Dir(n) != Dir(n + 1)
    ensures Dir(n + 1) == Dir(n).Flip()
    ensures n as int + 2 < USIZE_LIMIT ==> Dir(n) == Dir(n + 2)
  {
  }

  /** `k` frames later the direction has flipped exactly when `k` is odd. */
  lemma DirAfter(n: usize, k: nat)
    requires n as int + k < USIZE_LIMIT
    ensures Dir((n as int + k) as usize) == if k % 2 == 0 then Dir(n) else Dir(n).Flip()
  {
  }

  /** Even in a build where `frame_num += 1` wraps around at 2^64 instead of panicking,
      the directions keep alternating, because 2^64 is even. */
  lemma WrappingIncrementAlternates(n: usize)
    ensures Dir(((n as int + 1) % USIZE_LIMIT) as usize) == Dir(n).Flip()
  {
    if n == USIZE_MAX {
      assert (n as int + 1) % USIZE_LIMIT == 0;
    } else {
      DirAlternates(n);
    }
  }

  /** An index into the two-element array `[T; 2]`. */
  type Slot = i: nat | i < 2

  /** The `pair: [T; 2]` field of both containers below. */
  datatype Pair<T> = Pair(slot0: T, slot1: T) {
    function At(i: Slot): T {
      if i == 0 then slot0 else slot1
    }
  }

  /** The slot `RenderSources::src` reads for each direction. */
  function SrcSlot(d: RenderDir): Slot {
    match d
    case Forward => 0
    case Reverse => 1
  }

  /** The slot `RenderSources::dst` reads for each direction. */
  function DstSlot(d: RenderDir): Slot {
    match d
    case Forward => 1
    case Reverse => 0
  }

  /** The slot `RenderMotion::get` reads for each direction. */
  function GetSlot(d: RenderDir): Slot {
    match d
    case Forward => 0
    case Reverse => 1
  }

  /** For every direction the source and destination slots differ, and the two roles
      swap between the directions. */
  lemma SlotsNeverAlias(d: RenderDir)
    ensures SrcSlot(d) != DstSlot(d)
    ensures SrcSlot(d) == DstSlot(d.Flip()) && DstSlot(d) == SrcSlot(d.Flip())
    ensures {SrcSlot(d), DstSlot(d)} == {0, 1}
  {
  }

  /** `RenderMotion::get` uses the same slot as `RenderSources::src`. */
  lemma GetSlotIsSrcSlot(d: RenderDir)
    ensures GetSlot(d) == SrcSlot(d)
  {
  }

  /** `RenderSources<T>`: two objects used together as a (src, dst) pair. */
  datatype RenderSources<T> = RenderSources(pair: Pair<T>) {

    /** `RenderSources::new`: the object generated for Forward goes in slot 0 and the one
        generated for Reverse in slot 1, so each direction reads its own object and
        writes the other direction's. */
    static function New(generate: RenderDir -> T): (s: RenderSources<T>)
      ensures s.pair.slot0 == generate(Forward) && s.pair.slot1 == generate(Reverse)
      ensures forall d :: s.Src(d) == generate(d) && s.Dst(d) == generate(d.Flip())
    {
      RenderSources(Pair(generate(Forward), generate(Reverse)))
    }

    /** The object read in direction `d`: it is the object written in the other
        direction, and it is never the object written in `d` itself when the two
        objects are distinct. */
    function Src(d: RenderDir): (r: T)
      ensures r == Dst(d.Flip())
      ensures pair.slot0 != pair.slot1 ==> r != Dst(d)
    {
      pair.At(SrcSlot(d))
    }

    /** The object written in direction `d`: the slot the other direction reads. */
    function Dst(d: RenderDir): (r: T)
      ensures r == pair.At(SrcSlot(d.Flip()))
    {
      pair.At(DstSlot(d))
    }
  }

  /** The object written in frame `n` is the one read in frame `n + 1`, and the object
      read in frame `n` is the one written in frame `n + 1`. */
  lemma HandOff<T>(s: RenderSources<T>, n: usize)
    requires n as int + 1 < USIZE_LIMIT
    ensures s.Src(Dir(n + 1)) == s.Dst(Dir(n))
    ensures s.Dst(Dir(n + 1)) == s.Src(Dir(n))
  {
  }

  /** `RenderMotion<T>`: one precomputed object per direction. */
  datatype RenderMotion<T> = RenderMotion(pair: Pair<T>) {

    /** `RenderMotion::new`: `get(d)` afterwards yields exactly what was generated for `d`. */
    static function New(generate: RenderDir -> T): (m: RenderMotion<T>)
      ensures m.pair.slot0 == generate(Forward) && m.pair.slot1 == generate(Reverse)
      ensures forall d :: m.Get(d) == generate(d)
    {
      RenderMotion(Pair(generate(Forward), generate(Reverse)))
    }

    /** The object for direction `d`, taken from the slot `RenderSources::src` reads. */
    function Get(d: RenderDir): (r: T)
      ensures r == pair.At(SrcSlot(d))
    {
      pair.At(GetSlot(d))
    }
  }

  /** Over the same pair, `RenderMotion::get` and `RenderSources::src` pick the same
      object, so a motion built from the same generator as a sources pair follows
      the source role. */
  lemma MotionFollowsSource<T>(p: Pair<T>, generate: RenderDir -> T, d: RenderDir)
    ensures RenderMotion(p).Get(d) == RenderSources(p).Src(d)
    ensures RenderMotion.New(generate).Get(d) == RenderSources.New(generate).Src(d)
  {
  }
}
