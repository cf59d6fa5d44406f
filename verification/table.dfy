/** The span table: for every 64 KiB span of an arena, the class it is dedicated to and its home shard,
    packed into one word so that it is published and read whole. */
module SpanTables {
  import opened Words
  import opened Geometry

  /** A `u16`. */
  type Half = n: nat | n < 0x1_0000

  function Pack(cls: Half, home: Half): nat {
    cls * 0x1_0000 + home
  }

  function Unpack(v: nat): Option<(nat, nat)> {
    if v == 0 then None else Some((v / 0x1_0000, v % 0x1_0000))
  }

  /** An entry reads back as written exactly when it is not class 0 on shard 0, which reads as
      unassigned. */
  lemma PackRoundTrip(cls: Half, home: Half)
    ensures Unpack(Pack(cls, home)) == Some((cls, home)) <==> !(cls == 0 && home == 0)
    ensures Pack(cls, home) % 0x1_0000 == home
  {
  }

  // --- a home is recorded in sixteen bits ----------------------------------------------

  lemma RemainderIs(n: nat, d: nat, q: nat, r: nat)
    requires d > 0 && r < d && n == q * d + r
    ensures n % d == r
  {
    DivisionIsUnique(n, d, q, r);
    assert n == (n / d) * d + n % d;
  }

  lemma ShiftKeepsRemainder(a: nat, r: nat, s: nat)
    requires s > 0
    ensures (a + r) % s == r % s <==> a % s == 0
  {
    var qa, ra := Quotient(a, s);
    var qr, rr := Quotient(r, s);
    SumRemainder(qa, ra, qr, rr, s);
  }

  lemma Quotient(a: nat, s: nat) returns (q: nat, r: nat)
    requires s > 0
    ensures a == q * s + r && r < s && a % s == r
  {
    q, r := a / s, a % s;
  }

  lemma SumRemainder(qa: nat, ra: nat, qr: nat, rr: nat, s: nat)
    requires ra < s && rr < s
    ensures ((qa * s + ra) + (qr * s + rr)) % s == if ra + rr < s then ra + rr else ra + rr - s
  {
    if ra + rr < s {
      RemainderIs((qa * s + ra) + (qr * s + rr), s, qa + qr, ra + rr);
    } else {
      RemainderIs((qa * s + ra) + (qr * s + rr), s, qa + qr + 1, ra + rr - s);
    }
  }

  /** A carve made with a thread's raw shard id uses the cell of `id % shards` and records the low sixteen bits
      of the id as home. The home leads back to that cell if and only if the rest of the id is a multiple of
      the number of shards. */
  lemma HomeLeadsBackIff(id: nat, shards: nat)
    requires shards > 0
    ensures (id % 0x1_0000) % shards == id % shards <==> (id / 0x1_0000 * 0x1_0000) % shards == 0
  {
    ShiftKeepsRemainder(id / 0x1_0000 * 0x1_0000, id % 0x1_0000, shards);
  }

  class SpanTable {
    const base: nat
    const len: nat
    const entries: array<nat>

    ghost predicate Valid() {
      entries.Length == (len + SPAN_BYTES - 1) / SPAN_BYTES && len > 0
    }

    constructor (base: nat, len: nat)
      requires len > 0
      ensures Valid() && fresh(entries) && this.base == base && this.len == len
      ensures forall ptr: nat :: Lookup(ptr) == None
    {
      this.base, this.len := base, len;
      entries := new nat[(len + SPAN_BYTES - 1) / SPAN_BYTES](_ => 0);
    }

    function IndexOf(ptr: nat): (r: Option<nat>)
      ensures r.Some? <==> base <= ptr < base + len
      ensures r.Some? && Valid() ==> r.value < entries.Length
    {
      if ptr < base || ptr >= base + len then None else Some(SpanOf(base, ptr))
    }

    /** `(class, home)` of the span a pointer falls in. */
    function Lookup(ptr: nat): (r: Option<(nat, nat)>)
      reads entries
      ensures !(base <= ptr < base + len) ==> r == None
    {
      match IndexOf(ptr)
      case None => None
      case Some(i) => if i < entries.Length then Unpack(entries[i]) else None
    }

    /** The home alone; `u16::MAX` for a pointer outside the arena. */
    function HomeRelaxed(ptr: nat): (r: nat)
      reads entries
      ensures !(base <= ptr < base + len) ==> r == 65535
      ensures Valid() && Lookup(ptr).Some? ==> r == Lookup(ptr).value.1
    {
      match IndexOf(ptr)
      case None => 65535
      case Some(i) => if i < entries.Length then entries[i] % 0x1_0000 else 65535
    }

    /** Whether the span of `q` overlaps `[ptr, ptr + bytes)`. */
    predicate Overlaps(ptr: nat, bytes: nat, q: nat): (r: bool)
      requires base <= ptr && base <= q && bytes > 0
      ensures r <==> SpanBase(base, SpanOf(base, q)) < ptr + bytes && ptr < SpanBase(base, SpanOf(base, q) + 1)
    {
      SpanOf(base, ptr) <= SpanOf(base, q) <= SpanOf(base, ptr + bytes - 1)
    }

    /** Dedicate every span that `[ptr, ptr + bytes)` overlaps: afterwards a pointer into one of them looks
        up as the class and home given, and any other pointer as before. */
    method AssignRange(ptr: nat, bytes: nat, cls: Half, home: Half)
      requires Valid() && bytes > 0
      modifies entries
      ensures forall q: nat :: base <= ptr < base + len && base <= q < base + len && Overlaps(ptr, bytes, q) ==>
                 && HomeRelaxed(q) == home
                 && (if cls == 0 && home == 0 then Lookup(q) == None else Lookup(q) == Some((cls, home)))
      ensures forall q: nat :: !(base <= ptr < base + len && base <= q < base + len && Overlaps(ptr, bytes, q)) ==>
                 Lookup(q) == old(Lookup(q)) && HomeRelaxed(q) == old(HomeRelaxed(q))
    {
      var first := IndexOf(ptr);
      if first.None? {
        return;
      }
      var last := SpanOf(base, ptr + bytes - 1);
      if last > entries.Length - 1 {
        last := entries.Length - 1;
      }
      for i := first.value to last + 1
        invariant forall k | 0 <= k < entries.Length ::
                    entries[k] == if first.value <= k < i then Pack(cls, home) else old(entries[k])
      {
        entries[i] := Pack(cls, home);
      }
      PackRoundTrip(cls, home);
      forall q: nat | base <= q < base + len
        ensures Overlaps(ptr, bytes, q) <==> first.value <= IndexOf(q).value < last + 1
      {
        assert IndexOf(q).value < entries.Length;
      }
    }
  }

  /** With three shards, a carve under thread id 65536 uses cell 1, and the home it records leads to cell 0. */
  method HomeAstrayExample() returns (table: SpanTable, cell: nat, leads: nat)
    ensures table.HomeRelaxed(0) == 65536 % 0x1_0000 && leads == table.HomeRelaxed(0) % 3
    ensures cell == 65536 % 3 == 1 && leads == 0
  {
    table := new SpanTable(0, SPAN_BYTES);
    table.AssignRange(0, SPAN_BYTES, 1, 65536 % 0x1_0000);
    assert table.Overlaps(0, SPAN_BYTES, 0);
    cell, leads := 65536 % 3, table.HomeRelaxed(0) % 3;
  }
}
