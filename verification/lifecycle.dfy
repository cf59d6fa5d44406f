/** Spans and slots as a step machine over all threads. */
module Lifecycle {
  // Every shared load or store that can interleave is its own step; a held spin lock is a fact about a
  // thread's program counter.

  import opened Words
  import opened Geometry
  import opened Places
  import SpanPools

  const NO_SPAN: nat := SpanPools.NO_SPAN

  /** Fixed at construction. Class 0 is unused. */
  datatype Config = Config(base: nat, numSpans: nat, shards: nat, osz: seq<nat>)

  ghost predicate ConfigOk(c: Config) {
    && 1 <= c.shards <= 65535 && c.numSpans < NO_SPAN && 1 <= |c.osz| <= LARGE_CLASS
    && forall k | 1 <= k < |c.osz| :: ClassSize(c.osz[k])
  }

  /** A `(shard, class)` central cell: its lock, active list and reuse hint. */
  datatype Cell = Cell(shard: nat, cls: nat)

  predicate ValidCell(c: Config, k: Cell) {
    k.shard < c.shards && 1 <= k.cls < |c.osz|
  }

  function Size(c: Config, k: Cell): (n: nat)
    requires ConfigOk(c) && ValidCell(c, k)
    ensures ClassSize(n)
  {
    c.osz[k.cls]
  }

  function Slots(c: Config, k: Cell): nat
    requires ConfigOk(c) && ValidCell(c, k)
  {
    SlotsPerSpan(Size(c, k))
  }

  function Group(c: Config, k: Cell): (n: nat)
    requires ConfigOk(c) && ValidCell(c, k)
    ensures n >= 1
  {
    GroupSpans(Size(c, k))
  }

  datatype Obj = Obj(span: nat, slot: nat)

  type Tid = nat

  /** Where a tiled slot can be: the two bitmaps, the application, a per-CPU stack, a thread's
      magazine, its pending coalesced deposit mask, the word it swapped out of `free_words`,
      or its refill buffer. */
  datatype Place = AllocWords | FreeWords | Live | L2(cpu: nat) | Mag(t: Tid) | Mask(t: Tid) | Fold(t: Tid) | Out(t: Tid)

  predicate Private(p: Place) {
    p != AllocWords && p != FreeWords && !p.Fold?
  }

  /** Where a span can be. */
  datatype Owner = Uncarved | Pool | LargeRun(h: nat) | SmallGroup(h: nat) | Transit(t: Tid)

  /** A span-table entry: `(class, home)`, or unassigned. */
  datatype Tag = Untagged | Tag(cls: nat, home: nat)

  const LARGE: Tag := Tag(LARGE_CLASS, 0)

  /** Why a word is folded: to take bits of it, or to count the free slots of a span that a sweep looks
      at, of which `n` are counted so far. */
  datatype Job = Take | Count(n: nat)

  /** Program counters. All but the first and the last four hold a cell's central lock. */
  datatype Pc =
    | Idle
    | Holding(k: Cell)                                  // between words
    | Scan(k: Cell, span: nat, w: nat, job: Job)        // about to peek at a free word
    | Peeked(k: Cell, span: nat, w: nat, job: Job)      // the peek saw a non-zero word
    | Swapped(k: Cell, span: nat, w: nat, job: Job)     // incoming bits taken, not yet merged
    | Have(k: Cell, word: set<Obj>)                     // the folded alloc word, not yet cleared
    | Reread(k: Cell, span: nat, w: nat)                // all slots counted, the first w free words read as zero
    | Claimed(k: Cell, h: nat, n: nat, i: nat)          // run claimed for a carve; the first i spans are tagged
    | Tagged(k: Cell, h: nat, n: nat, i: nat)           // tagged; the first i spans are tiled
    | Emptied(k: Cell, span: nat)                       // is_fully_free said yes
    | Unlinked(k: Cell, span: nat, i: nat)              // off the active list; the first i spans are marked LARGE_CLASS
    | LargeGot(h: nat, n: nat)                          // run taken for a large allocation
    | LargeNoted(h: nat, n: nat, i: nat)                // its length is recorded; the first i spans are marked
    | LargeFreed(h: nat, n: nat)                        // run-length swapped out, not yet filed
    | Hinting(k: Cell, span: nat)                       // about to publish a reuse hint

  function LockOf(p: Pc): Option<Cell> {
    match p
    case Idle => None
    case LargeGot(_, _) => None
    case LargeNoted(_, _, _) => None
    case LargeFreed(_, _) => None
    case Hinting(_, _) => None
    case _ => Some(p.k)
  }

  datatype State = State(
    at: Layout<Place, Obj>,       // the slots
    spans: Layout<Owner, nat>,    // the spans; Pool is the span pool's free set
    small: map<nat, Cell>,        // tiled heads, and the cell whose active list they are on
    large: map<nat, nat>,         // live large runs
    runSpans: seq<nat>,
    table: seq<Tag>,
    cursor: nat,                  // the bump cursor, in whole spans
    hint: map<Cell, nat>,
    pc: map<Tid, Pc>)

  function PcOf(s: State, t: Tid): Pc {
    if t in s.pc then s.pc[t] else Idle
  }

  function Goto(s: State, t: Tid, p: Pc): State {
    s.(pc := s.pc[t := p])
  }

  function HintOf(s: State, k: Cell): nat {
    if k in s.hint then s.hint[k] else NO_SPAN
  }

  function Initial(c: Config): State {
    State(map[], map[Uncarved := Range(0, c.numSpans)], map[], map[],
          seq(c.numSpans, _ => 0), seq(c.numSpans, _ => Untagged), 0, map[], map[])
  }

  /** The slots of span `sp` tiled for cell `k`. */
  function Tiles(c: Config, k: Cell, sp: nat): (r: set<Obj>)
    requires ConfigOk(c) && ValidCell(c, k)
    ensures forall o :: o in r <==> o.span == sp && o.slot < Slots(c, k)
  {
    var n := Slots(c, k);
    set j: nat | j < n :: Obj(sp, j)
  }

  /** The objects `x` holds in bitmap word `w` of span `sp`. */
  function WordOf(x: set<Obj>, sp: nat, w: nat): set<Obj> {
    set o | o in x && o.span == sp && o.slot / 64 == w
  }

  function OfSpan(x: set<Obj>, sp: nat): set<Obj> {
    set o | o in x && o.span == sp
  }

  datatype Action =
    | Lock(t: Tid, k: Cell)
    | Unlock(t: Tid)
    | BeginScan(t: Tid, span: nat, w: nat)
    | BeginHint(t: Tid, w: nat)
    | PeekZero(t: Tid)
    | PeekNonZero(t: Tid)
    | Swap(t: Tid)
    | Merge(t: Tid)
    | TakeBits(t: Tid, x: set<Obj>)
    | ForeignTake(t: Tid, folded: set<Obj>, x: set<Obj>)
    | ClaimPool(t: Tid, h: nat, n: nat)
    | ClaimBump(t: Tid, n: nat)
    | TagRun(t: Tid)
    | Tile(t: Tid)
    | CarveDone(t: Tid)
    | BeginCheck(t: Tid, span: nat)
    | ReadZero(t: Tid)
    | ReadNonZero(t: Tid)
    | Unlink(t: Tid)
    | Retag(t: Tid)
    | ResetBits(t: Tid)
    | FileRun(t: Tid, h: nat, n: nat)
    | Hand(p: Place, q: Place, x: set<Obj>)
    | Deposit(t: Tid, span: nat, w: nat)
    | HintRead(t: Tid, span: nat, cls: nat)
    | HintWrite(t: Tid)
    | SetHint(k: Cell, span: nat)
    | LargePool(t: Tid, h: nat, n: nat)
    | LargeBump(t: Tid, n: nat)
    | LargeRecord(t: Tid)
    | LargeTag(t: Tid)
    | LargeDone(t: Tid)
    | LargeSwap(t: Tid, h: nat)
    | LargeFile(t: Tid)

  /** No thread is inside the cell's lock. */
  ghost predicate Unlocked(s: State, k: Cell) {
    forall t :: LockOf(PcOf(s, t)) != Some(k)
  }

  /** A carve takes the run a class larger than a span needs in full, or nothing. */
  ghost predicate FullGroup(c: Config, k: Cell, n: nat)
    requires ConfigOk(c) && ValidCell(c, k)
  {
    Group(c, k) > 1 ==> n == Group(c, k)
  }

  /** The check `central_take` makes of a hinted span: it names a span of this class. */
  ghost predicate HintClassOk(s: State, k: Cell, h: nat) {
    h < |s.table| && s.table[h].Tag? && s.table[h].cls == k.cls
  }

  /** The hinted span is also homed on this shard. */
  ghost predicate HintHomeOk(c: Config, s: State, k: Cell, h: nat) {
    HintClassOk(s, k, h) && c.shards > 0 && s.table[h].home % c.shards == k.shard
  }

  /** The steps of large allocations and frees. */
  ghost predicate LargeEnabled(c: Config, s: State, a: Action) {
    match a
    case LargePool(t, h, n) => PcOf(s, t) == Idle && n >= 1 && Range(h, n) <= Get(s.spans, Pool)
    case LargeBump(t, n) => PcOf(s, t) == Idle && n >= 1 && s.cursor + n <= c.numSpans
    case LargeRecord(t) => PcOf(s, t).LargeGot? && PcOf(s, t).h < |s.runSpans|
    case LargeTag(t) =>
      PcOf(s, t).LargeNoted? && PcOf(s, t).i < PcOf(s, t).n && PcOf(s, t).h + PcOf(s, t).i < |s.table|
    case LargeDone(t) => PcOf(s, t).LargeNoted? && PcOf(s, t).i == PcOf(s, t).n
    case LargeSwap(t, h) => PcOf(s, t) == Idle && h in s.large && h < |s.runSpans|
    case LargeFile(t) => PcOf(s, t).LargeFreed?
    case _ => false
  }

  ghost function LargeApply(c: Config, s: State, a: Action): State
    requires LargeEnabled(c, s, a)
  {
    match a
    case LargePool(t, h, n) => Goto(s.(spans := Move(s.spans, Pool, Transit(t), Range(h, n))), t, LargeGot(h, n))
    case LargeBump(t, n) =>
      Goto(s.(cursor := s.cursor + n, spans := Move(s.spans, Uncarved, Transit(t), Range(s.cursor, n))), t,
           LargeGot(s.cursor, n))
    case LargeRecord(t) =>
      var LargeGot(h, n) := PcOf(s, t);
      Goto(s.(runSpans := s.runSpans[h := n]), t, LargeNoted(h, n, 0))
    case LargeTag(t) =>
      var LargeNoted(h, n, i) := PcOf(s, t);
      Goto(s.(table := s.table[h + i := LARGE]), t, LargeNoted(h, n, i + 1))
    case LargeDone(t) =>
      var LargeNoted(h, n, _) := PcOf(s, t);
      Goto(s.(large := s.large[h := n], spans := Move(s.spans, Transit(t), LargeRun(h), Range(h, n))), t, Idle)
    case LargeSwap(t, h) =>
      var n := s.runSpans[h];
      Goto(s.(runSpans := s.runSpans[h := 0], large := s.large - {h},
              spans := Move(s.spans, LargeRun(h), Transit(t), Range(h, n))), t, LargeFreed(h, n))
    case LargeFile(t) =>
      var LargeFreed(h, n) := PcOf(s, t);
      Goto(s.(spans := Move(s.spans, Transit(t), Pool, Range(h, n))), t, Idle)
  }

  ghost predicate Enabled(c: Config, s: State, a: Action)
    requires ConfigOk(c)
  {
    match a
    case Lock(t, k) => PcOf(s, t) == Idle && ValidCell(c, k) && Unlocked(s, k)
    case Unlock(t) => PcOf(s, t).Holding?
    case BeginScan(t, sp, w) => PcOf(s, t).Holding? && sp in s.small && s.small[sp] == PcOf(s, t).k
    case BeginHint(t, w) =>
      PcOf(s, t).Holding? && HintHomeOk(c, s, PcOf(s, t).k, HintOf(s, PcOf(s, t).k))
    case PeekZero(t) =>
      && PcOf(s, t).Scan? && ValidCell(c, PcOf(s, t).k)
      && WordOf(Get(s.at, FreeWords), PcOf(s, t).span, PcOf(s, t).w) == {}
    case PeekNonZero(t) =>
      PcOf(s, t).Scan? && WordOf(Get(s.at, FreeWords), PcOf(s, t).span, PcOf(s, t).w) != {}
    case Swap(t) => PcOf(s, t).Peeked?
    case Merge(t) => PcOf(s, t).Swapped? && ValidCell(c, PcOf(s, t).k)
    case TakeBits(t, x) => PcOf(s, t).Have? && x <= PcOf(s, t).word
    case ForeignTake(t, f, x) =>
      && PcOf(s, t).Holding?
      && var h := HintOf(s, PcOf(s, t).k);
      && HintClassOk(s, PcOf(s, t).k, h)
      && (h in s.small ==> s.small[h] == PcOf(s, t).k || Unlocked(s, s.small[h]))
      && f <= OfSpan(Get(s.at, FreeWords), h)
      && x <= OfSpan(Get(s.at, AllocWords), h) + f
    case ClaimPool(t, h, n) =>
      && PcOf(s, t).Holding? && ValidCell(c, PcOf(s, t).k) && FullGroup(c, PcOf(s, t).k, n)
      && n >= 1 && Range(h, n) <= Get(s.spans, Pool)
    case ClaimBump(t, n) =>
      && PcOf(s, t).Holding? && ValidCell(c, PcOf(s, t).k) && FullGroup(c, PcOf(s, t).k, n)
      && n >= 1 && s.cursor + n <= c.numSpans
    case TagRun(t) => PcOf(s, t).Claimed? && PcOf(s, t).h + PcOf(s, t).i < |s.table|
    case Tile(t) => PcOf(s, t).Tagged? && PcOf(s, t).i < PcOf(s, t).n && ValidCell(c, PcOf(s, t).k)
    case CarveDone(t) => PcOf(s, t).Tagged? && PcOf(s, t).i >= PcOf(s, t).n
    case BeginCheck(t, sp) => PcOf(s, t).Holding? && sp in s.small && s.small[sp] == PcOf(s, t).k
    case ReadZero(t) =>
      && PcOf(s, t).Reread? && ValidCell(c, PcOf(s, t).k)
      && WordOf(Get(s.at, FreeWords), PcOf(s, t).span, PcOf(s, t).w) == {}
    case ReadNonZero(t) =>
      PcOf(s, t).Reread? && WordOf(Get(s.at, FreeWords), PcOf(s, t).span, PcOf(s, t).w) != {}
    case Unlink(t) => PcOf(s, t).Emptied?
    case Retag(t) =>
      && PcOf(s, t).Unlinked? && ValidCell(c, PcOf(s, t).k) && PcOf(s, t).i < Group(c, PcOf(s, t).k)
      && PcOf(s, t).span + PcOf(s, t).i < |s.table|
    case ResetBits(t) => PcOf(s, t).Unlinked? && ValidCell(c, PcOf(s, t).k) && PcOf(s, t).i == Group(c, PcOf(s, t).k)
    case FileRun(t, h, n) => PcOf(s, t) == Idle && n >= 1 && Range(h, n) <= Get(s.spans, Transit(t))
    case Hand(p, q, x) => Private(p) && Private(q) && x <= Get(s.at, p)
    case Deposit(t, sp, w) => true
    case HintRead(t, sp, cl) =>
      && PcOf(s, t) == Idle && sp < |s.table| && s.table[sp].Tag?
    case HintWrite(t) => PcOf(s, t).Hinting?
    case SetHint(k, sp) => true
    case _ => LargeEnabled(c, s, a)
  }

  function TileNext(c: Config, s: State, t: Tid): State
    requires ConfigOk(c) && PcOf(s, t).Tagged? && ValidCell(c, PcOf(s, t).k)
  {
    var Tagged(k, h, n, i) := PcOf(s, t);
    if Group(c, k) == 1 then
      Goto(s.(small := s.small[h + i := k],
              spans := Move(s.spans, Transit(t), SmallGroup(h + i), Range(h + i, 1)),
              at := Put(s.at, AllocWords, Tiles(c, k, h + i))), t, Tagged(k, h, n, i + 1))
    else
      Goto(s.(small := s.small[h := k],
              spans := Move(s.spans, Transit(t), SmallGroup(h), Range(h, n)),
              at := Put(s.at, AllocWords, Tiles(c, k, h))), t, Tagged(k, h, n, n))
  }

  /** Where a thread goes from the fold of word `w`, which holds `word`: to the take, or on with a count;
      a span that has all its slots counted has its free words read again. */
  function Folded(c: Config, k: Cell, sp: nat, w: nat, job: Job, word: set<Obj>): Pc
    requires ConfigOk(c) && ValidCell(c, k)
  {
    match job
    case Take => Have(k, word)
    case Count(n) =>
      if 64 * (w + 1) < Slots(c, k) then Scan(k, sp, w + 1, Count(n + |word|))
      else if n + |word| == Slots(c, k) then Reread(k, sp, 0)
      else Holding(k)
  }

  ghost function Apply(c: Config, s: State, a: Action): State
    requires ConfigOk(c) && Enabled(c, s, a)
  {
    match a
    case Lock(t, k) => Goto(s, t, Holding(k))
    case Unlock(t) => Goto(s, t, Idle)
    case BeginScan(t, sp, w) => Goto(s, t, Scan(PcOf(s, t).k, sp, w, Take))
    case BeginHint(t, w) => Goto(s, t, Scan(PcOf(s, t).k, HintOf(s, PcOf(s, t).k), w, Take))
    case PeekZero(t) =>
      var Scan(k, sp, w, job) := PcOf(s, t);
      Goto(s, t, Folded(c, k, sp, w, job, WordOf(Get(s.at, AllocWords), sp, w)))
    case PeekNonZero(t) =>
      var Scan(k, sp, w, job) := PcOf(s, t);
      Goto(s, t, Peeked(k, sp, w, job))
    case Swap(t) =>
      var Peeked(k, sp, w, job) := PcOf(s, t);
      Goto(s.(at := Move(s.at, FreeWords, Fold(t), WordOf(Get(s.at, FreeWords), sp, w))), t, Swapped(k, sp, w, job))
    case Merge(t) =>
      var Swapped(k, sp, w, job) := PcOf(s, t);
      var incoming := Get(s.at, Fold(t));
      Goto(s.(at := Move(s.at, Fold(t), AllocWords, incoming)), t,
           Folded(c, k, sp, w, job, WordOf(Get(s.at, AllocWords), sp, w) + incoming))
    case TakeBits(t, x) =>
      Goto(s.(at := Move(s.at, AllocWords, Out(t), x)), t, Holding(PcOf(s, t).k))
    case ForeignTake(t, f, x) =>
      s.(at := Move(Move(s.at, FreeWords, AllocWords, f), AllocWords, Out(t), x))
    case ClaimPool(t, h, n) =>
      Goto(s.(spans := Move(s.spans, Pool, Transit(t), Range(h, n))), t, Claimed(PcOf(s, t).k, h, n, 0))
    case ClaimBump(t, n) =>
      Goto(s.(cursor := s.cursor + n, spans := Move(s.spans, Uncarved, Transit(t), Range(s.cursor, n))), t,
           Claimed(PcOf(s, t).k, s.cursor, n, 0))
    case TagRun(t) =>
      var Claimed(k, h, n, i) := PcOf(s, t);
      Goto(s.(table := s.table[h + i := Tag(k.cls, k.shard)]), t, if i + 1 < n then Claimed(k, h, n, i + 1) else Tagged(k, h, n, 0))
    case Tile(t) => TileNext(c, s, t)
    case CarveDone(t) => Goto(s, t, Holding(PcOf(s, t).k))
    case BeginCheck(t, sp) => Goto(s, t, Scan(PcOf(s, t).k, sp, 0, Count(0)))
    case ReadZero(t) =>
      var Reread(k, sp, w) := PcOf(s, t);
      Goto(s, t, if 64 * (w + 1) < Slots(c, k) then Reread(k, sp, w + 1) else Emptied(k, sp))
    case ReadNonZero(t) => Goto(s, t, Holding(PcOf(s, t).k))
    case Unlink(t) =>
      var Emptied(k, sp) := PcOf(s, t);
      Goto(if HintOf(s, k) == sp then s.(hint := s.hint[k := NO_SPAN]) else s, t, Unlinked(k, sp, 0))
    case Retag(t) =>
      var Unlinked(k, sp, i) := PcOf(s, t);
      Goto(s.(table := s.table[sp + i := LARGE]), t, Unlinked(k, sp, i + 1))
    case ResetBits(t) =>
      var k, sp := PcOf(s, t).k, PcOf(s, t).span;
      Goto(s.(at := Drop(Drop(s.at, AllocWords, Tiles(c, k, sp)), FreeWords, Tiles(c, k, sp)),
              small := s.small - {sp},
              spans := Move(s.spans, SmallGroup(sp), Transit(t), Range(sp, Group(c, k)))), t, Holding(k))
    case FileRun(t, h, n) => s.(spans := Move(s.spans, Transit(t), Pool, Range(h, n)))
    case Hand(p, q, x) => s.(at := Move(s.at, p, q, x))
    case Deposit(t, sp, w) => s.(at := Move(s.at, Mask(t), FreeWords, WordOf(Get(s.at, Mask(t)), sp, w)))
    case HintRead(t, sp, cl) => Goto(s, t, Hinting(Cell(s.table[sp].home % c.shards, cl), sp))
    case HintWrite(t) => Goto(s.(hint := s.hint[PcOf(s, t).k := PcOf(s, t).span]), t, Idle)
    case SetHint(k, sp) => s.(hint := s.hint[k := sp])
    case _ => LargeApply(c, s, a)
  }

  // --- the invariant -----------------------------------------------------------

  /** Every span is at exactly one place; the uncarved ones are those from the cursor on. */
  ghost predicate SpansOk(c: Config, spans: Layout<Owner, nat>, cursor: nat) {
    && Exclusive(spans)
    && (forall i: nat :: Somewhere(spans, i) <==> i < c.numSpans)
    && cursor <= c.numSpans && Get(spans, Uncarved) == Range(cursor, c.numSpans - cursor)
  }

  ghost predicate LargeRunOk(spans: Layout<Owner, nat>, large: map<nat, nat>, runSpans: seq<nat>, table: seq<Tag>, h: nat) {
    if h in large then
      && 1 <= large[h] && h + large[h] <= |table| == |runSpans|
      && Get(spans, LargeRun(h)) == Range(h, large[h])
      && runSpans[h] == large[h]
      && forall i | h <= i < h + large[h] :: table[i] == LARGE
    else
      Get(spans, LargeRun(h)) == {}
  }

  /** A live large run owns its spans; the run table and the span table record it. */
  ghost predicate LargeOk(spans: Layout<Owner, nat>, large: map<nat, nat>, runSpans: seq<nat>, table: seq<Tag>) {
    forall h :: LargeRunOk(spans, large, runSpans, table, h)
  }

  ghost predicate SmallGroupOk(c: Config, spans: Layout<Owner, nat>, small: map<nat, Cell>, h: nat)
    requires ConfigOk(c)
  {
    if h in small then
      ValidCell(c, small[h]) && Get(spans, SmallGroup(h)) == Range(h, Group(c, small[h]))
    else
      Get(spans, SmallGroup(h)) == {}
  }

  /** A tiled head owns the spans of its group. */
  ghost predicate SmallOk(c: Config, spans: Layout<Owner, nat>, small: map<nat, Cell>)
    requires ConfigOk(c)
  {
    forall h :: SmallGroupOk(c, spans, small, h)
  }

  ghost predicate Tiled(c: Config, small: map<nat, Cell>, o: Obj)
    requires ConfigOk(c)
  {
    o.span in small && ValidCell(c, small[o.span]) && o.slot < Slots(c, small[o.span])
  }

  /** Every tiled slot is at exactly one place, and nothing else is anywhere. */
  ghost predicate SlotsOk(c: Config, at: Layout<Place, Obj>, small: map<nat, Cell>)
    requires ConfigOk(c)
  {
    Exclusive(at) && forall o :: Somewhere(at, o) <==> Tiled(c, small, o)
  }

  /** Span `sp` belongs to a group of cell `k`. */
  ghost predicate OwnSpan(c: Config, small: map<nat, Cell>, k: Cell, sp: nat)
    requires ConfigOk(c) && ValidCell(c, k)
  {
    exists h: nat :: InGroup(c, small, k, h, sp)
  }

  ghost predicate InGroup(c: Config, small: map<nat, Cell>, k: Cell, h: nat, sp: nat)
    requires ConfigOk(c) && ValidCell(c, k)
  {
    h in small && small[h] == k && h <= sp < h + Group(c, k)
  }

  /** The span table names the cell of every tiled span, unless its retirement has re-tagged it. */
  ghost predicate TableOk(c: Config, s: State)
    requires ConfigOk(c)
  {
    && |s.table| == |s.runSpans| == c.numSpans
    && (forall h, i: nat | h in s.small && ValidCell(c, s.small[h]) && InGroup(c, s.small, s.small[h], h, i) && i < |s.table| ::
          s.table[i] == Tag(s.small[h].cls, s.small[h].shard) || exists t :: Marked(s, t, h, i))
    && (forall i | 0 <= i < |s.table| && s.table[i].Tag? && s.table[i].cls != LARGE_CLASS :: SmallTagOk(c, s, i))
  }

  /** Thread `t` is retiring the group of head `h` and has marked its span `i`. */
  ghost predicate Marked(s: State, t: Tid, h: nat, i: nat) {
    var p := PcOf(s, t);
    p.Unlinked? && p.span == h && i < h + p.i
  }

  /** A small-class entry names the cell that owns the span, or that is carving it. */
  ghost predicate SmallTagOk(c: Config, s: State, i: nat)
    requires ConfigOk(c) && i < |s.table| && s.table[i].Tag?
  {
    var k := Cell(s.table[i].home, s.table[i].cls);
    ValidCell(c, k) && (OwnSpan(c, s.small, k, i) || exists t :: Carving(s, t, k, i))
  }

  ghost predicate Carving(s: State, t: Tid, k: Cell, i: nat) {
    var p := PcOf(s, t);
    (p.Tagged? && p.k == k && p.h + p.i <= i < p.h + p.n) || (p.Claimed? && p.k == k && p.h <= i < p.h + p.i)
  }

  ghost predicate LocksOk(c: Config, s: State) {
    && (forall t, u | LockOf(PcOf(s, t)).Some? && LockOf(PcOf(s, t)) == LockOf(PcOf(s, u)) :: t == u)
    && (forall t | LockOf(PcOf(s, t)).Some? :: ValidCell(c, LockOf(PcOf(s, t)).value))
  }

  /** All slots of the span are in the private bitmap: nobody holds or is returning one. */
  ghost predicate FullyFree(c: Config, s: State, k: Cell, sp: nat)
    requires ConfigOk(c) && ValidCell(c, k)
  {
    sp in s.small && s.small[sp] == k && Tiles(c, k, sp) <= Get(s.at, AllocWords)
  }

  /** The objects `x` holds in the first `w` bitmap words of span `sp`. */
  function WordsBelow(x: set<Obj>, sp: nat, w: nat): set<Obj> {
    set o | o in x && o.span == sp && o.slot / 64 < w
  }

  /** A count never runs ahead of the free slots in the words it has been through. */
  ghost predicate JobOk(small: map<nat, Cell>, alloc: set<Obj>, k: Cell, sp: nat, w: nat, job: Job) {
    job.Count? ==> sp in small && small[sp] == k && job.n <= |WordsBelow(alloc, sp, w)|
  }

  ghost predicate PcOk(c: Config, s: State, t: Tid)
    requires ConfigOk(c) && LocksOk(c, s)
  {
    var p := PcOf(s, t);
    && (!p.Swapped? ==> Get(s.at, Fold(t)) == {})
    && match p
       case Idle => true
       case Holding(_) => true
       case Scan(k, sp, w, job) => OwnSpan(c, s.small, k, sp) && JobOk(s.small, Get(s.at, AllocWords), k, sp, w, job)
       case Peeked(k, sp, w, job) => OwnSpan(c, s.small, k, sp) && JobOk(s.small, Get(s.at, AllocWords), k, sp, w, job)
       case Swapped(k, sp, w, job) =>
         && OwnSpan(c, s.small, k, sp) && JobOk(s.small, Get(s.at, AllocWords), k, sp, w, job)
         && forall o | o in Get(s.at, Fold(t)) :: o.span == sp && o.slot / 64 == w
       case Reread(k, sp, _) => FullyFree(c, s, k, sp)
       case Have(k, word) =>
         word <= Get(s.at, AllocWords) && forall o | o in word :: o.span in s.small && s.small[o.span] == k
       case Claimed(k, h, n, i) =>
         && i < n && FullGroup(c, k, n) && Range(h, n) <= Get(s.spans, Transit(t))
         && (forall j | h <= j < h + i && j < |s.table| :: s.table[j] == Tag(k.cls, k.shard))
       case Tagged(k, h, n, i) =>
         && i <= n && FullGroup(c, k, n) && (Group(c, k) > 1 ==> i == 0 || i == n)
         && Range(h + i, n - i) <= Get(s.spans, Transit(t))
         && (forall j | h + i <= j < h + n && j < |s.table| :: s.table[j] == Tag(k.cls, k.shard))
       case Emptied(k, sp) => FullyFree(c, s, k, sp)
       case Unlinked(k, sp, i) =>
         FullyFree(c, s, k, sp) && i <= Group(c, k) && forall j | sp <= j < sp + i && j < |s.table| :: s.table[j] == LARGE
       case LargeGot(h, n) => n >= 1 && Range(h, n) <= Get(s.spans, Transit(t))
       case LargeNoted(h, n, i) =>
         && i <= n && 1 <= n && Range(h, n) <= Get(s.spans, Transit(t)) && h < |s.runSpans| && s.runSpans[h] == n
         && (forall j | h <= j < h + i && j < |s.table| :: s.table[j] == LARGE)
       case LargeFreed(h, n) => n >= 1 && Range(h, n) <= Get(s.spans, Transit(t))
       case Hinting(_, _) => true
  }

  ghost predicate Inv(c: Config, s: State)
    requires ConfigOk(c)
  {
    && SpansOk(c, s.spans, s.cursor)
    && LargeOk(s.spans, s.large, s.runSpans, s.table)
    && SmallOk(c, s.spans, s.small)
    && SlotsOk(c, s.at, s.small)
    && TableOk(c, s)
    && LocksOk(c, s)
    && forall t :: PcOk(c, s, t)
  }

  lemma InitialInv(c: Config)
    requires ConfigOk(c)
    ensures Inv(c, Initial(c))
  {
    var s := Initial(c);
    forall i: nat ensures Somewhere(s.spans, i) <==> i < c.numSpans {
      assert i < c.numSpans ==> i in Get(s.spans, Uncarved);
    }
    assert forall o :: !Somewhere(s.at, o) && !Tiled(c, s.small, o);
  }
}
