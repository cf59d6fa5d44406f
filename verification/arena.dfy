/** The bump arena: a cursor that threads advance by compare-and-swap to claim fresh spans, as many as they ask for
    or as are left. */
module Arena {
  import opened Words
  import opened Geometry

  /** Whole spans left before `end` from `at`: as many as fit. */
  function SpansLeft(end: nat, at: nat): (n: nat)
    ensures n > 0 ==> at + n * SPAN_BYTES <= end
    ensures end < at + (n + 1) * SPAN_BYTES
  {
    if at >= end then 0 else (end - at) / SPAN_BYTES
  }

  /** Bytes a claim of `n` spans gets from `at`: it is cut down to what is left. */
  function ClaimBytes(end: nat, at: nat, n: nat): nat {
    SPAN_BYTES * (if n <= SpansLeft(end, at) then n else SpansLeft(end, at))
  }

  /** A carve for a class larger than a span asks for the spans of one object and tiles one object at
      the start of whatever run it gets. That object lies inside the run if and only if the arena has as
      many spans left as it asked for. */
  lemma GroupFitsIffEnoughLeft(end: nat, at: nat, osz: nat)
    requires osz > 0
    ensures osz <= ClaimBytes(end, at, GroupSpans(osz)) <==> GroupSpans(osz) <= SpansLeft(end, at)
  {
    var left, group := SpansLeft(end, at), GroupSpans(osz);
    assert (group - 1) * SPAN_BYTES < osz <= group * SPAN_BYTES;
  }

  /** With one span left, a 128 KiB class gets a non-empty run of half an object. */
  lemma ShortGroupExample()
    ensures ClaimBytes(65536, 0, GroupSpans(131072)) == 65536
  {
    assert GroupSpans(131072) == 2 && SpansLeft(65536, 0) == 1;
  }

  class BumpArena {
    const base: nat
    const end: nat
    var cursor: nat

    /** Whether no other thread claims anything. */
    const alone: bool

    /** Spans claimed by this thread and by all the others. */
    ghost var mine: set<nat>
    ghost var theirs: set<nat>

    /** The cursor is on the span grid, and the spans behind it are claimed, each by one thread. */
    ghost predicate Valid()
      reads this
    {
      && base <= cursor <= end && (cursor - base) % SPAN_BYTES == 0
      && mine !! theirs
      && forall i: nat :: i in mine || i in theirs <==> SpanBase(base, i) < cursor
    }

    constructor (base: nat, end: nat, alone: bool)
      requires base <= end
      ensures Valid() && this.base == base && this.end == end && cursor == base && this.alone == alone
    {
      this.base, this.end, this.cursor, this.alone := base, end, base, alone;
      mine, theirs := {}, {};
    }

    ghost function Spans(from: nat, to: nat): (r: set<nat>)
      ensures forall i: nat :: i in r <==> from <= SpanBase(base, i) < to
    {
      set i: nat | i <= to && Inside(i, from, to)
    }

    ghost predicate Inside(i: nat, from: nat, to: nat) {
      from <= SpanBase(base, i) < to
    }

    lemma ClaimFits(n: nat, at: nat)
      requires n <= SpansLeft(end, at) && at <= end
      ensures at + n * SPAN_BYTES <= end
    {
    }

    /** Any claims by other threads between two of our steps. */
    method Contend()
      requires Valid()
      modifies this`cursor, this`theirs
      ensures Valid() && old(cursor) <= cursor && theirs == old(theirs) + Spans(old(cursor), cursor)
      ensures alone ==> cursor == old(cursor)
    {
      if alone {
        return;
      }
      var n :| 0 <= n <= SpansLeft(end, cursor);
      ClaimFits(n, cursor);
      theirs := theirs + Spans(cursor, cursor + n * SPAN_BYTES);
      cursor := cursor + n * SPAN_BYTES;
    }

    /** Advance the cursor from `at` to `to` if it still is at `at`. */
    method CompareExchange(at: nat, to: nat) returns (ok: bool)
      requires Valid() && at <= to <= end && (to - at) % SPAN_BYTES == 0
      modifies this
      ensures Valid() && (ok <==> old(cursor) == at)
      ensures ok ==> cursor == to && mine == old(mine) + Spans(at, to) && theirs == old(theirs)
      ensures !ok ==> cursor == old(cursor) && mine == old(mine) && theirs == old(theirs)
    {
      ok := cursor == at;
      if ok {
        cursor := to;
        mine := mine + Spans(at, to);
      }
    }

    /** Claim up to `n` whole spans: as many as are left when the claim succeeds, and nothing only when no
        whole span is left. Nobody else has or gets a span of the run. */
    method CarveSpans(n: nat) returns (start: nat, runEnd: nat)
      requires Valid()
      modifies this
      ensures Valid() && old(cursor) <= start <= runEnd <= cursor
      ensures (start - base) % SPAN_BYTES == 0 && (runEnd - start) % SPAN_BYTES == 0
      ensures runEnd - start == ClaimBytes(end, start, n)
      ensures mine == old(mine) + Spans(start, runEnd) && Spans(start, runEnd) !! old(mine) + theirs
      ensures n > 0 && start == runEnd ==> SpansLeft(end, cursor) == 0
      ensures alone ==> start == old(cursor) && runEnd == cursor
    {
      Contend();
      start := cursor;
      while true
        invariant Valid() && old(cursor) <= start <= cursor && (start - base) % SPAN_BYTES == 0
        invariant mine == old(mine) && start <= end && (alone ==> cursor == old(cursor))
        decreases end - start
      {
        Contend();
        var avail := SpansLeft(end, start);
        if avail == 0 {
          return start, start;
        }
        var take := if n <= avail then n else avail;
        runEnd := start + take * SPAN_BYTES;
        Contend();
        var ok := CompareExchange(start, runEnd);
        if ok {
          break;
        }
        start := cursor;
      }
    }

    /** Claim a run of exactly `bytes`, or nothing when it does not fit. */
    method CarveRun(bytes: nat) returns (r: Option<nat>)
      requires Valid() && bytes % SPAN_BYTES == 0
      modifies this
      ensures Valid() && old(cursor) <= cursor
      ensures r.None? ==> mine == old(mine) && cursor + bytes > end
      ensures r.Some? ==> old(cursor) <= r.value && r.value + bytes <= cursor && (r.value - base) % SPAN_BYTES == 0
      ensures r.Some? ==> mine == old(mine) + Spans(r.value, r.value + bytes)
      ensures r.Some? ==> Spans(r.value, r.value + bytes) !! old(mine) + theirs
      ensures alone ==> r == (if old(cursor) + bytes > end then None else Some(old(cursor)))
    {
      Contend();
      var cur := cursor;
      while true
        invariant Valid() && old(cursor) <= cur <= cursor && mine == old(mine) && cur <= end
        invariant (cur - base) % SPAN_BYTES == 0 && (alone ==> cursor == old(cursor))
        decreases end - cur
      {
        Contend();
        var start := base + (cur - base + SPAN_BYTES - 1) / SPAN_BYTES * SPAN_BYTES;
        assert start == cur;
        if start + bytes > end {
          return None;
        }
        Contend();
        var ok := CompareExchange(cur, start + bytes);
        if ok {
          return Some(start);
        }
        cur := cursor;
      }
    }
  }
}
