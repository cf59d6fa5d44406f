/** Handles over one frame of the pool: the split byte buffers, whose windows partition a frame, and the typed
    `Owned` and `Shared` handles. Each handle counts as one reference; every step that other threads can see
    is one atomic change of the count, so any interleaving is a sequence of these calls. */
module Buffers {
  import opened Words
  import opened Geometry

  const U16_MAX: nat := 65535

  /** A frame handed out by the pool for byte buffers. */
  class Frame {
    const capacity: nat
    var refs: nat

    /** Live windows, whether the unique writer is live, and how often the frame went back to the pool. */
    ghost var windows: set<FrameBuf>
    ghost var writing: bool
    ghost var recycled: nat

    ghost predicate Valid()
      reads this, windows
    {
      && (writing ==> windows == {} && refs == 1) && (!writing ==> refs == |windows|)
      && recycled == (if refs == 0 then 1 else 0)
      && (forall w | w in windows :: w.frame == this && w.offset + w.len <= Cap())
      && (forall v, w | v in windows && w in windows && v != w :: Apart(v.offset, v.len, w.offset, w.len))
    }

    /** Writable bytes: at most what a `u16` can address. */
    function Cap(): (c: nat)
      ensures c <= capacity && c <= U16_MAX && (c == capacity || c == U16_MAX)
    {
      if capacity <= U16_MAX then capacity else U16_MAX
    }

    /** As the pool hands it out: one reference, held by the writer. */
    constructor (capacity: nat)
      ensures Valid() && writing && this.capacity == capacity && windows == {}
    {
      this.capacity, refs, windows, writing, recycled := capacity, 1, {}, true, 0;
    }

    /** Give up one reference; true for the last. */
    method Release() returns (last: bool)
      requires refs >= 1
      modifies this`refs
      ensures refs == old(refs) - 1 && (last <==> refs == 0)
    {
      last := refs == 1;
      refs := refs - 1;
    }

    /** Back to the pool: never while a reference is left, and never twice. */
    ghost method Recycle()
      requires refs == 0 && recycled == 0
      modifies this`recycled
      ensures recycled == 1
    {
      recycled := 1;
    }

    /** The writer publishes the first `len` bytes, or all there are, as the first window. */
    method Freeze(len: nat) returns (b: FrameBuf)
      requires Valid() && writing
      modifies this`writing, this`windows
      ensures Valid() && !writing && windows == {b} && refs == 1 && fresh(b)
      ensures b.frame == this && b.offset == 0 && b.len == if len <= Cap() then len else Cap()
    {
      b := new FrameBuf(this, 0, if len <= Cap() then len else Cap());
      writing, windows := false, {b};
    }

    /** The writer is dropped without publishing anything. */
    method DropWriter()
      requires Valid() && writing
      modifies this
      ensures Valid() && !writing && windows == {} && recycled == 1
    {
      var last := Release();
      writing := false;
      Recycle();
    }
  }

  /** A window `[offset, offset + len)` of a frame. */
  class FrameBuf {
    const frame: Frame
    var offset: nat
    var len: nat

    constructor (frame: Frame, offset: nat, len: nat)
      ensures this.frame == frame && this.offset == offset && this.len == len
    {
      this.frame, this.offset, this.len := frame, offset, len;
    }

    ghost predicate Live()
      reads this, frame, frame.windows
    {
      frame.Valid() && this in frame.windows
    }

    /** Split at `at`: the new window takes the first `at` bytes and this one keeps the rest, so the two have
        exactly the bytes this one had. Past the end the source panics and nothing changes. */
    method SplitTo(at: nat) returns (head: Option<FrameBuf>)
      requires Live()
      modifies this, frame
      ensures frame.Valid() && (head.None? <==> at > old(len)) && this in frame.windows
      ensures head.None? ==> offset == old(offset) && len == old(len) && frame.windows == old(frame.windows) && frame.refs == old(frame.refs)
      ensures head.Some? ==> fresh(head.value) && head.value.frame == frame && frame.windows == old(frame.windows) + {head.value}
      ensures head.Some? ==> head.value.offset == old(offset) && head.value.len == at
      ensures head.Some? ==> offset == old(offset) + at <= U16_MAX && offset + len == old(offset + len)
      ensures frame.recycled == old(frame.recycled) && !frame.writing
    {
      if at > len {
        return None;
      }
      var start := offset;
      offset, len := offset + at, len - at;
      frame.refs := frame.refs + 1;
      var h := new FrameBuf(frame, start, at);
      frame.windows := frame.windows + {h};
      return Some(h);
    }

    /** Keep the first `n` bytes. */
    method Truncate(n: nat)
      requires Live()
      modifies this`len
      ensures Live() && len == if n <= old(len) then n else old(len)
    {
      len := if n <= len then n else len;
    }

    /** Drop the first `n` bytes; past the end the source panics. */
    method Advance(n: nat) returns (ok: bool)
      requires Live()
      modifies this`offset, this`len
      ensures Live() && (ok <==> n <= old(len))
      ensures if ok then offset == old(offset) + n <= U16_MAX && len == old(len) - n else offset == old(offset) && len == old(len)
    {
      ok := n <= len;
      if ok {
        offset, len := offset + n, len - n;
      }
    }

    /** Release the window; the last one returns the frame. */
    method Drop()
      requires Live()
      modifies frame
      ensures frame.Valid() && frame.windows == old(frame.windows) - {this} && !frame.writing
      ensures frame.recycled == 1 <==> frame.windows == {}
    {
      var last := frame.Release();
      frame.windows := frame.windows - {this};
      if last {
        frame.Recycle();
      }
    }
  }

  // --- any sequence of operations ------------------------------------------------------

  datatype Op = DoSplit(i: nat, at: nat) | DoTruncate(i: nat, n: nat) | DoAdvance(i: nat, n: nat) | DoDrop(i: nat)

  ghost predicate Tracks(bufs: seq<FrameBuf>, f: Frame)
    reads f, f.windows
  {
    && f.Valid() && !f.writing
    && (forall i | 0 <= i < |bufs| :: bufs[i] in f.windows) && (forall w | w in f.windows :: w in bufs)
    && (forall i, j | 0 <= i < j < |bufs| :: bufs[i] != bufs[j])
  }

  /** What an operation makes of the list of windows, as offset and length: a split moves the prefix to the end of the
      list, and what would panic changes nothing. */
  function OpOn(ws: seq<(nat, nat)>, op: Op): seq<(nat, nat)> {
    if op.i >= |ws| then ws
    else
      var (offset, len) := ws[op.i];
      match op
      case DoSplit(i, at) => if at > len then ws else ws[i := (offset + at, len - at)] + [(offset, at)]
      case DoTruncate(i, n) => ws[i := (offset, if n <= len then n else len)]
      case DoAdvance(i, n) => if n > len then ws else ws[i := (offset + n, len - n)]
      case DoDrop(i) => ws[..i] + ws[i + 1..]
  }

  function AllOps(ws: seq<(nat, nat)>, ops: seq<Op>): seq<(nat, nat)> {
    if ops == [] then ws else OpOn(AllOps(ws, ops[..|ops| - 1]), ops[|ops| - 1])
  }

  ghost function Windows(bufs: seq<FrameBuf>): (r: seq<(nat, nat)>)
    reads bufs
    ensures |r| == |bufs| && forall i | 0 <= i < |bufs| :: r[i] == (bufs[i].offset, bufs[i].len)
  {
    seq(|bufs|, i requires 0 <= i < |bufs| reads bufs => (bufs[i].offset, bufs[i].len))
  }

  /** Whatever is done with the windows of a published frame, in whatever order, the live ones lie inside the
      frame, apart from each other, and are counted; the frame has gone back exactly if none is left. */
  method Serve(f: Frame, first: FrameBuf, ops: seq<Op>) returns (bufs: seq<FrameBuf>)
    requires f.Valid() && !f.writing && f.windows == {first}
    modifies f, first
    ensures Tracks(bufs, f) && f.refs == |bufs| && f.recycled == (if bufs == [] then 1 else 0)
    ensures forall b | b in bufs :: b == first || fresh(b)
    ensures Windows(bufs) == AllOps([(old(first.offset), old(first.len))], ops)
  {
    bufs := [first];
    var k := 0;
    while k < |ops|
      invariant k <= |ops| && Tracks(bufs, f) && forall b | b in f.windows :: b == first || fresh(b)
      invariant Windows(bufs) == AllOps([(old(first.offset), old(first.len))], ops[..k])
    {
      assert ops[..k + 1][..k] == ops[..k];
      if ops[k].i < |bufs| {
        bufs := OneOp(bufs, f, ops[k]);
      }
      k := k + 1;
    }
    assert ops[..k] == ops;
    TracksAll(bufs, f);
  }

  /** A set has as many elements as a list of all of them without repetition. */
  lemma {:induction false} Members<T>(xs: seq<T>, s: set<T>)
    requires (forall x | x in xs :: x in s) && (forall x | x in s :: x in xs)
    requires forall i, j | 0 <= i < j < |xs| :: xs[i] != xs[j]
    ensures |s| == |xs|
    decreases |xs|
  {
    if xs != [] {
      var x, rest := xs[|xs| - 1], xs[..|xs| - 1];
      assert xs == rest + [x] && x !in rest;
      Members(rest, s - {x});
    }
  }

  lemma TracksAll(bufs: seq<FrameBuf>, f: Frame)
    requires Tracks(bufs, f)
    ensures f.refs == |bufs| && f.recycled == (if bufs == [] then 1 else 0)
  {
    Members(bufs, f.windows);
  }

  /** Dropping the windows that are left returns the frame to the pool: once, and with the last. */
  method AnyRun(f: Frame, first: FrameBuf, ops: seq<Op>)
    requires f.Valid() && !f.writing && f.windows == {first}
    modifies f, first
    ensures f.Valid() && f.windows == {} && f.refs == 0 && f.recycled == 1
  {
    var bufs := Serve(f, first, ops);
    while bufs != []
      invariant Tracks(bufs, f)
      decreases |bufs|
    {
      bufs := DropOne(bufs, f, 0);
    }
    TracksAll(bufs, f);
  }

  /** A frame handed out for bytes goes back once, whether it is dropped unwritten or published, used in any way
      and dropped window by window. */
  method AnyFrame(capacity: nat, publish: Option<nat>, ops: seq<Op>) returns (f: Frame)
    ensures f.Valid() && f.windows == {} && f.refs == 0 && f.recycled == 1
  {
    f := new Frame(capacity);
    match publish {
      case None => f.DropWriter();
      case Some(len) =>
        var first := f.Freeze(len);
        AnyRun(f, first, ops);
    }
  }

  method SplitOne(bufs: seq<FrameBuf>, f: Frame, i: nat, at: nat) returns (left: seq<FrameBuf>)
    requires Tracks(bufs, f) && i < |bufs|
    modifies f, bufs[i]
    ensures Tracks(left, f) && forall w | w in f.windows :: w in old(f.windows) || fresh(w)
    ensures if at > old(bufs[i].len) then left == bufs && bufs[i].offset == old(bufs[i].offset) && bufs[i].len == old(bufs[i].len)
            else && |left| == |bufs| + 1 && left[..|bufs|] == bufs && left[|bufs|].offset == old(bufs[i].offset) && left[|bufs|].len == at
                 && bufs[i].offset == old(bufs[i].offset) + at && bufs[i].len == old(bufs[i].len) - at
  {
    var b := bufs[i];
    assert b.frame == f;
    var h := b.SplitTo(at);
    left := if h.Some? then bufs + [h.value] else bufs;
    forall w | w in f.windows ensures w in left {
      assert w in old(f.windows) ==> w in bufs;
    }
  }

  method DropOne(bufs: seq<FrameBuf>, f: Frame, i: nat) returns (left: seq<FrameBuf>)
    requires Tracks(bufs, f) && i < |bufs|
    modifies f
    ensures Tracks(left, f) && f.windows <= old(f.windows) && |left| == |bufs| - 1
    ensures left == bufs[..i] + bufs[i + 1..]
  {
    var b := bufs[i];
    assert b.frame == f;
    b.Drop();
    left := bufs[..i] + bufs[i + 1..];
    forall w | w in f.windows ensures w in left {
      var j :| 0 <= j < |bufs| && bufs[j] == w;
      assert left[if j < i then j else j - 1] == w;
    }
  }

  method SplitAt(bufs: seq<FrameBuf>, f: Frame, i: nat, at: nat) returns (left: seq<FrameBuf>)
    requires Tracks(bufs, f) && i < |bufs|
    modifies f, bufs[i]
    ensures Tracks(left, f) && forall w | w in f.windows :: w in old(f.windows) || fresh(w)
    ensures Windows(left) == OpOn(old(Windows(bufs)), DoSplit(i, at))
  {
    ghost var ws := Windows(bufs);
    NoTwice(bufs, f);
    hide Tracks;
    left := SplitOne(bufs, f, i, at);
    assert ws[i] == (old(bufs[i].offset), old(bufs[i].len));
    if at <= ws[i].1 {
      forall j | 0 <= j < |bufs| ensures Windows(left)[j] == if j == i then (ws[i].0 + at, ws[i].1 - at) else ws[j] {
        assert left[..|bufs|][j] == bufs[j];
      }
      SplitWindows(ws, Windows(left), i, at);
    }
  }

  lemma SplitWindows(ws: seq<(nat, nat)>, now: seq<(nat, nat)>, i: nat, at: nat)
    requires i < |ws| && at <= ws[i].1
    requires |now| == |ws| + 1 && now[|ws|] == (ws[i].0, at)
    requires forall j | 0 <= j < |ws| :: now[j] == if j == i then (ws[i].0 + at, ws[i].1 - at) else ws[j]
    ensures now == OpOn(ws, DoSplit(i, at))
  {
  }

  lemma NoTwice(bufs: seq<FrameBuf>, f: Frame)
    requires Tracks(bufs, f)
    ensures forall i, j | 0 <= i < j < |bufs| :: bufs[i] != bufs[j]
  {
  }

  method DropAt(bufs: seq<FrameBuf>, f: Frame, i: nat) returns (left: seq<FrameBuf>)
    requires Tracks(bufs, f) && i < |bufs|
    modifies f
    ensures Tracks(left, f) && f.windows <= old(f.windows) && Windows(left) == OpOn(old(Windows(bufs)), DoDrop(i))
  {
    hide Tracks;
    ghost var ws := Windows(bufs);
    left := DropOne(bufs, f, i);
    assert Windows(bufs) == ws;
  }

  method TrimAt(bufs: seq<FrameBuf>, f: Frame, i: nat, n: nat, front: bool)
    requires Tracks(bufs, f) && i < |bufs|
    modifies bufs[i]
    ensures Tracks(bufs, f) && Windows(bufs) == OpOn(old(Windows(bufs)), if front then DoAdvance(i, n) else DoTruncate(i, n))
  {
    assert bufs[i].frame == f;
    if front {
      var ok := bufs[i].Advance(n);
    } else {
      bufs[i].Truncate(n);
    }
  }

  method OneOp(bufs: seq<FrameBuf>, f: Frame, op: Op) returns (left: seq<FrameBuf>)
    requires Tracks(bufs, f) && op.i < |bufs|
    modifies f, bufs[op.i]
    ensures Tracks(left, f) && forall w | w in f.windows :: w in old(f.windows) || fresh(w)
    ensures Windows(left) == OpOn(old(Windows(bufs)), op)
  {
    hide Tracks, OpOn;
    left := bufs;
    match op {
      case DoSplit(i, at) => left := SplitAt(bufs, f, i, at);
      case DoTruncate(i, n) => TrimAt(bufs, f, i, n, false);
      case DoAdvance(i, n) => TrimAt(bufs, f, i, n, true);
      case DoDrop(i) => left := DropAt(bufs, f, i);
    }
  }

  // --- typed handles -----------------------------------------------------------------

  /** A frame that holds one value, from the move into it to its return to the pool. */
  class TypedFrame {
    var refs: nat

    /** The live handles, and how often the value's destructor has run and the frame has gone back. */
    ghost var handles: set<Handle>
    ghost var destroyed: nat
    ghost var recycled: nat

    ghost predicate Valid()
      reads this, handles
    {
      && refs == |handles| && destroyed == recycled == (if handles == {} then 1 else 0)
      && (forall h | h in handles :: h.frame == this)
      && (forall h | h in handles && h.owned :: handles == {h})
    }

    /** As the pool hands it out, the value moved in, for the handle that `Owned::new` makes. */
    constructor ()
      ensures refs == 1 && handles == {} && destroyed == recycled == 0
    {
      refs, handles, destroyed, recycled := 1, {}, 0, 0;
    }

    /** Run the value's destructor: once, while the frame is still ours. */
    ghost method DropInPlace()
      requires destroyed == 0 && recycled == 0
      modifies this`destroyed
      ensures destroyed == 1
    {
      destroyed := 1;
    }

    /** Return the frame: only after the destructor, and once. */
    ghost method Recycle()
      requires destroyed == 1 && recycled == 0 && refs == 0
      modifies this`recycled
      ensures recycled == 1
    {
      recycled := 1;
    }
  }

  /** An `Owned` or a `Shared` handle. */
  class Handle {
    const frame: TypedFrame
    var owned: bool

    constructor (frame: TypedFrame, owned: bool)
      ensures this.frame == frame && this.owned == owned
    {
      this.frame, this.owned := frame, owned;
    }

    ghost predicate Live()
      reads this, frame, frame.handles
    {
      frame.Valid() && this in frame.handles
    }

    /** `into_shared`: the same single reference. */
    method IntoShared()
      requires Live() && owned
      modifies this`owned
      ensures Live() && !owned && frame.handles == {this}
    {
      owned := false;
    }

    method Clone() returns (h: Handle)
      requires Live() && !owned
      modifies frame`refs, frame`handles
      ensures Live() && fresh(h) && !h.owned && h.frame == frame && frame.handles == old(frame.handles) + {h}
    {
      frame.refs := frame.refs + 1;
      h := new Handle(frame, false);
      frame.handles := frame.handles + {h};
    }

    /** The unique owner runs the destructor and returns the frame, whatever the count says. */
    method DropOwned()
      requires Live() && owned
      modifies frame
      ensures frame.Valid() && frame.handles == {} && frame.destroyed == 1 && frame.recycled == 1
    {
      frame.DropInPlace();
      frame.refs := frame.refs - 1;
      frame.handles := {};
      frame.Recycle();
    }

    /** Only the last of the handles runs the destructor and then returns the frame. */
    method DropShared() returns (last: bool)
      requires Live() && !owned
      modifies frame
      ensures frame.Valid() && frame.handles == old(frame.handles) - {this} && (last <==> frame.handles == {})
    {
      last := frame.refs == 1;
      frame.refs := frame.refs - 1;
      frame.handles := frame.handles - {this};
      if last {
        frame.DropInPlace();
        frame.Recycle();
      }
    }
  }

  /** `Owned::new` on a fresh frame. */
  method NewOwned() returns (h: Handle)
    ensures fresh(h) && fresh(h.frame) && h.Live() && h.owned && h.frame.handles == {h}
  {
    var frame := new TypedFrame();
    h := new Handle(frame, true);
    frame.handles := {h};
  }

  datatype ShareOp = DoClone(i: nat) | DoRelease(i: nat)

  /** `hs` are the live handles of the frame, each once, all of them shared ones. */
  ghost predicate Shares(hs: seq<Handle>, f: TypedFrame)
    reads f, f.handles
  {
    && f.Valid() && (forall h | h in f.handles :: !h.owned)
    && (forall i | 0 <= i < |hs| :: hs[i] in f.handles) && (forall h | h in f.handles :: h in hs)
    && (forall i, j | 0 <= i < j < |hs| :: hs[i] != hs[j])
  }

  /** How many handles there are after the operations: a clone of one of them adds one, a drop takes one away. */
  function HandlesLeft(ops: seq<ShareOp>): nat {
    if ops == [] then 1
    else
      var n := HandlesLeft(ops[..|ops| - 1]);
      if ops[|ops| - 1].i >= n then n else if ops[|ops| - 1].DoClone? then n + 1 else n - 1
  }

  /** Whatever handles are cloned and dropped, by whatever threads in whatever order, the count is that of the
      live handles; the destructor has run and the frame has gone back exactly if none is left. */
  method ServeShared(ops: seq<ShareOp>) returns (f: TypedFrame, hs: seq<Handle>)
    ensures fresh(f) && Shares(hs, f) && fresh(f.handles)
    ensures f.refs == |hs| == HandlesLeft(ops) && f.destroyed == f.recycled == (if hs == [] then 1 else 0)
  {
    var first := NewOwned();
    f := first.frame;
    first.IntoShared();
    hs := [first];
    var k := 0;
    while k < |ops|
      invariant k <= |ops| && Shares(hs, f) && fresh(f) && fresh(f.handles) && |hs| == HandlesLeft(ops[..k])
    {
      assert ops[..k + 1][..k] == ops[..k];
      if ops[k].i < |hs| {
        hs := OneShareOp(hs, f, ops[k]);
      }
      k := k + 1;
    }
    assert ops[..k] == ops;
    Members(hs, f.handles);
  }

  method OneShareOp(hs: seq<Handle>, f: TypedFrame, op: ShareOp) returns (left: seq<Handle>)
    requires Shares(hs, f) && op.i < |hs|
    modifies f
    ensures Shares(left, f) && forall h | h in f.handles :: h in old(f.handles) || fresh(h)
    ensures |left| == if op.DoClone? then |hs| + 1 else |hs| - 1
  {
    assert hs[op.i].frame == f;
    match op {
      case DoClone(i) =>
        var h := hs[i].Clone();
        left := hs + [h];
        forall x | x in f.handles ensures x in left {
          assert x in old(f.handles) ==> x in hs;
        }
      case DoRelease(i) => left := ReleaseOne(hs, f, i);
    }
  }

  method ReleaseOne(hs: seq<Handle>, f: TypedFrame, i: nat) returns (left: seq<Handle>)
    requires Shares(hs, f) && i < |hs|
    modifies f
    ensures Shares(left, f) && f.handles <= old(f.handles) && |left| == |hs| - 1
  {
    assert hs[i].frame == f;
    var last := hs[i].DropShared();
    left := hs[..i] + hs[i + 1..];
    forall h | h in f.handles ensures h in left {
      var j :| 0 <= j < |hs| && hs[j] == h;
      assert left[if j < i then j else j - 1] == h;
    }
  }

  /** Dropping the handles that are left: one destructor run and one return, whatever came before. */
  method AnySharing(ops: seq<ShareOp>) returns (f: TypedFrame)
    ensures f.Valid() && f.handles == {} && f.destroyed == 1 && f.recycled == 1
  {
    var hs;
    f, hs := ServeShared(ops);
    while hs != []
      invariant Shares(hs, f) && fresh(f)
      decreases |hs|
    {
      hs := ReleaseOne(hs, f, 0);
    }
    Members(hs, f.handles);
  }

  /** A value moved into a frame is destroyed once and its frame goes back once, whether its owner is dropped as
      such or made shared, cloned and dropped in any order. */
  method AnyHandle(share: bool, ops: seq<ShareOp>) returns (f: TypedFrame)
    ensures f.Valid() && f.handles == {} && f.destroyed == 1 && f.recycled == 1
  {
    if share {
      f := AnySharing(ops);
    } else {
      var h := NewOwned();
      f := h.frame;
      h.DropOwned();
    }
  }
}
