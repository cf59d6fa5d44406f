/** `SpanPool`: a segregated-fit, coalescing index of the free span runs of an arena. */
module SpanPools {
  import opened Words

  /** `u32::MAX`, the list terminator. */
  const NO_SPAN: nat := 0xFFFF_FFFF

  /** Recorded free runs: head span to span count. */
  type Runs = map<nat, nat>

  /** Runs are non-empty, inside the arena, disjoint and never adjacent. */
  ghost predicate Separated(r: Runs, n: nat) {
    && (forall h | h in r :: 1 <= r[h] && h + r[h] <= n)
    && (forall h, k | h in r && k in r && h < k :: h + r[h] < k)
  }

  ghost predicate Covers(r: Runs, h: nat, i: nat) {
    h in r && h <= i < h + r[h]
  }

  ghost predicate InSomeRun(r: Runs, i: nat) {
    exists h: nat :: Covers(r, h, i)
  }

  /** The spans a set of runs holds free. */
  ghost function FreeSpans(r: Runs, n: nat): (f: set<nat>) {
    set i: nat | i < n && InSomeRun(r, i)
  }

  /** `[h, h + c)` is a maximal interval of `f`. */
  ghost predicate Maximal(f: set<nat>, h: nat, c: nat) {
    c >= 1 && Range(h, c) <= f && h + c !in f && (h > 0 ==> h - 1 !in f)
  }

  // --- the recorded runs are canonical -----------------------------------

  lemma CoversInFree(r: Runs, n: nat, h: nat, i: nat)
    requires Separated(r, n) && Covers(r, h, i)
    ensures i in FreeSpans(r, n)
  {
  }

  /** The recorded runs are exactly the maximal intervals of the spans they cover. */
  lemma RunsAreMaximal(r: Runs, n: nat, h: nat, c: nat)
    requires Separated(r, n)
    ensures (h in r && r[h] == c) <==> Maximal(FreeSpans(r, n), h, c)
  {
    var f := FreeSpans(r, n);
    if h in r && r[h] == c {
      forall i | i in Range(h, c) ensures i in f { CoversInFree(r, n, h, i); }
      assert Covers(r, h, h);
    }
    if Maximal(f, h, c) {
      assert h in f;
      var k: nat :| Covers(r, k, h);
      if k < h { CoversInFree(r, n, k, h - 1); }
      assert k == h;
      var e := h + r[h];
      assert e < h + c ==> e in Range(h, c);
      if r[h] > c { CoversInFree(r, n, h, h + c); }
    }
  }

  /** So two separated run maps that cover the same spans are the same map. */
  lemma RunsAreCanonical(r: Runs, q: Runs, n: nat)
    requires Separated(r, n) && Separated(q, n) && FreeSpans(r, n) == FreeSpans(q, n)
    ensures r == q
  {
    forall h | h in r ensures h in q && q[h] == r[h] {
      RunsAreMaximal(r, n, h, r[h]);
      RunsAreMaximal(q, n, h, r[h]);
    }
    forall h | h in q ensures h in r {
      RunsAreMaximal(q, n, h, q[h]);
      RunsAreMaximal(r, n, h, q[h]);
    }
  }

  /** With every span free there is one run, the whole arena. */
  lemma AllFreeIsOneRun(r: Runs, n: nat)
    requires n >= 1 && Separated(r, n) && FreeSpans(r, n) == Range(0, n)
    ensures r == map[0 := n]
  {
    var q: Runs := map[0 := n];
    forall i | i in Range(0, n) ensures i in FreeSpans(q, n) {
      assert Covers(q, 0, i);
    }
    RunsAreCanonical(r, q, n);
  }

  /** A free interval lies inside one recorded run. */
  lemma IntervalInsideOneRun(r: Runs, n: nat, h: nat, c: nat) returns (k: nat)
    requires c >= 1 && Separated(r, n) && Range(h, c) <= FreeSpans(r, n)
    ensures k in r && k <= h && h + c <= k + r[k]
  {
    assert h in FreeSpans(r, n);
    k :| Covers(r, k, h);
    var e := k + r[k];
    assert e < h + c ==> e in Range(h, c);
  }

  lemma RemoveRun(r: Runs, n: nat, h: nat)
    requires Separated(r, n) && h in r
    ensures Separated(r - {h}, n)
    ensures FreeSpans(r - {h}, n) == FreeSpans(r, n) - Range(h, r[h])
  {
    var q := r - {h};
    forall i | i in FreeSpans(q, n) ensures i in FreeSpans(r, n) && i !in Range(h, r[h]) {
      var k: nat :| Covers(q, k, i);
      assert Covers(r, k, i);
      assert k < h || h < k;
    }
    forall i | i in FreeSpans(r, n) - Range(h, r[h]) ensures i in FreeSpans(q, n) {
      var k: nat :| Covers(r, k, i);
      assert Covers(q, k, i);
    }
  }

  /** `[h, h + c)` neither overlaps nor touches a recorded run. */
  ghost predicate Apart(r: Runs, h: nat, c: nat) {
    forall k | k in r :: k + r[k] < h || h + c < k
  }

  lemma AddRun(r: Runs, n: nat, h: nat, c: nat)
    requires Separated(r, n) && c >= 1 && h + c <= n && Apart(r, h, c)
    ensures h !in r && Separated(r[h := c], n)
    ensures FreeSpans(r[h := c], n) == FreeSpans(r, n) + Range(h, c)
  {
    var q := r[h := c];
    assert h !in r;
    forall i | i in FreeSpans(r, n) + Range(h, c) ensures i in FreeSpans(q, n) {
      if i in Range(h, c) {
        assert Covers(q, h, i);
      } else {
        var k: nat :| Covers(r, k, i);
        assert Covers(q, k, i);
      }
    }
    forall i | i in FreeSpans(q, n) ensures i in FreeSpans(r, n) + Range(h, c) {
      var k: nat :| Covers(q, k, i);
      if k != h { assert Covers(r, k, i); }
    }
  }

  /** What is left of the runs once `[h, h + n)` is taken off the front of run `h`. */
  ghost function TakeFront(r: Runs, h: nat, n: nat): Runs
    requires h in r && 1 <= n <= r[h]
  {
    if n == r[h] then r - {h} else (r - {h})[h + n := r[h] - n]
  }

  lemma TakeFrontFrees(r: Runs, s: nat, h: nat, n: nat)
    requires Separated(r, s) && h in r && 1 <= n <= r[h]
    ensures Separated(TakeFront(r, h, n), s) && Range(h, n) <= FreeSpans(r, s)
    ensures FreeSpans(TakeFront(r, h, n), s) == FreeSpans(r, s) - Range(h, n)
  {
    forall i | i in Range(h, n) ensures i in FreeSpans(r, s) { CoversInFree(r, s, h, i); }
    RemoveRun(r, s, h);
    if n < r[h] {
      AddRun(r - {h}, s, h + n, r[h] - n);
      assert forall i :: i in Range(h, r[h]) <==> i in Range(h, n) || i in Range(h + n, r[h] - n);
      forall i | i in Range(h, r[h]) ensures i in FreeSpans(r, s) { CoversInFree(r, s, h, i); }
    }
  }

  /** No recorded run overlaps `[h, h + c)`. */
  ghost predicate Clear(r: Runs, h: nat, c: nat) {
    forall k | k in r :: k + r[k] <= h || h + c <= k
  }

  lemma DisjointIsClear(r: Runs, s: nat, h: nat, c: nat)
    requires Separated(r, s) && c >= 1 && Range(h, c) !! FreeSpans(r, s)
    ensures Clear(r, h, c)
  {
    forall k | k in r ensures k + r[k] <= h || h + c <= k {
      var i := if h <= k then k else h;
      if h < k + r[k] && k < h + c { CoversInFree(r, s, k, i); }
    }
  }

  ghost predicate RightApart(r: Runs, h: nat, c: nat) {
    forall k | k in r && k >= h :: h + c < k
  }

  /** Merging the run that starts where `[h, h + c)` ends. */
  lemma AbsorbRight(r: Runs, s: nat, h: nat, c: nat)
    requires Separated(r, s) && Clear(r, h, c) && c >= 1 && h + c in r
    ensures var k := h + c; var q, d := r - {k}, c + r[k];
            && Separated(q, s) && h + d <= s && Clear(q, h, d) && RightApart(q, h, d)
            && FreeSpans(q, s) + Range(h, d) == FreeSpans(r, s) + Range(h, c)
  {
    var k := h + c;
    RemoveRun(r, s, k);
    assert forall i :: i in Range(h, c + r[k]) <==> i in Range(h, c) || i in Range(k, r[k]);
    forall i | i in Range(k, r[k]) ensures i in FreeSpans(r, s) { CoversInFree(r, s, k, i); }
  }

  /** Merging the run `k` that ends where `[h, h + c)` starts. */
  lemma AbsorbLeft(r: Runs, s: nat, h: nat, c: nat, k: nat)
    requires Separated(r, s) && Clear(r, h, c) && c >= 1 && RightApart(r, h, c)
    requires k in r && k + r[k] == h && h + c <= s
    ensures var q, d := r - {k}, r[k] + c;
            && Separated(q, s) && k + d <= s && Apart(q, k, d)
            && FreeSpans(q, s) + Range(k, d) == FreeSpans(r, s) + Range(h, c)
  {
    RemoveRun(r, s, k);
    assert forall i :: i in Range(k, r[k] + c) <==> i in Range(k, r[k]) || i in Range(h, c);
    forall i | i in Range(k, r[k]) ensures i in FreeSpans(r, s) { CoversInFree(r, s, k, i); }
  }

  // --- bucket stacks: doubly linked lists threaded through two arrays ---------

  ghost predicate Distinct(s: seq<nat>) {
    forall i, j | 0 <= i < j < |s| :: s[i] != s[j]
  }

  ghost function NextIn(s: seq<nat>, i: nat): nat
    requires i < |s|
  {
    if i + 1 < |s| then s[i + 1] else NO_SPAN
  }

  ghost function PrevIn(s: seq<nat>, i: nat): nat
    requires i < |s|
  {
    if i > 0 then s[i - 1] else NO_SPAN
  }

  ghost function First(s: seq<nat>): nat {
    if s == [] then NO_SPAN else s[0]
  }

  /** Node `i` of `s` is a valid index whose links name its neighbours. */
  ghost predicate LinkedAt(s: seq<nat>, i: nat, nx: seq<nat>, pv: seq<nat>)
    requires |nx| == |pv| && i < |s|
  {
    s[i] < |nx| && nx[s[i]] == NextIn(s, i) && pv[s[i]] == PrevIn(s, i)
  }

  /** From `first`, the links visit exactly the distinct nodes `s`, `pv` being the inverse of `nx`. */
  ghost predicate Chain(s: seq<nat>, first: nat, nx: seq<nat>, pv: seq<nat>) {
    && Distinct(s)
    && first == First(s)
    && |nx| == |pv| < NO_SPAN
    && (forall i | 0 <= i < |s| :: LinkedAt(s, i, nx, pv))
  }

  lemma ChainKept(s: seq<nat>, first: nat, nx: seq<nat>, pv: seq<nat>, nx2: seq<nat>, pv2: seq<nat>)
    requires Chain(s, first, nx, pv) && |nx2| == |pv2| == |nx|
    requires forall h | h in s && h < |nx| :: nx2[h] == nx[h] && pv2[h] == pv[h]
    ensures Chain(s, first, nx2, pv2)
  {
    forall i | 0 <= i < |s| ensures LinkedAt(s, i, nx2, pv2) {
      assert LinkedAt(s, i, nx, pv) && s[i] in s;
    }
  }

  ghost function Set(s: seq<nat>, i: nat, v: nat): (t: seq<nat>)
    ensures |t| == |s|
  {
    if i < |s| then s[i := v] else s
  }

  lemma ChainPush(s: seq<nat>, first: nat, nx: seq<nat>, pv: seq<nat>, h: nat)
    requires Chain(s, first, nx, pv) && h < |nx| && h !in s
    ensures Chain([h] + s, h, nx[h := first], Set(pv[h := NO_SPAN], first, h))
  {
    var t, nx2, pv2 := [h] + s, nx[h := first], Set(pv[h := NO_SPAN], first, h);
    forall i | 0 <= i < |t| ensures LinkedAt(t, i, nx2, pv2) {
      if i > 0 {
        assert LinkedAt(s, i - 1, nx, pv) && t[i] == s[i - 1];
      } else if s != [] {
        assert LinkedAt(s, 0, nx, pv);
      }
    }
  }

  ghost function Without(s: seq<nat>, k: nat): (t: seq<nat>)
    requires k < |s|
    ensures |t| == |s| - 1
  {
    seq(|s| - 1, i requires 0 <= i < |s| - 1 => s[if i < k then i else i + 1])
  }

  lemma ChainRemove(s: seq<nat>, first: nat, nx: seq<nat>, pv: seq<nat>, k: nat)
    requires Chain(s, first, nx, pv) && k < |s| && s[k] < |nx|
    ensures var p, n := pv[s[k]], nx[s[k]];
            Chain(Without(s, k), if p == NO_SPAN then n else first,
                  Set(nx, p, n)[s[k] := NO_SPAN], Set(pv, n, p)[s[k] := NO_SPAN])
  {
    var h, p, n := s[k], pv[s[k]], nx[s[k]];
    var t, nx2, pv2 := Without(s, k), Set(nx, p, n)[h := NO_SPAN], Set(pv, n, p)[h := NO_SPAN];
    assert LinkedAt(s, k, nx, pv);
    if k > 0 { assert LinkedAt(s, k - 1, nx, pv); }
    if k + 1 < |s| { assert LinkedAt(s, k + 1, nx, pv); }
    forall i | 0 <= i < |t| ensures LinkedAt(t, i, nx2, pv2) {
      var j := if i < k then i else i + 1;
      assert LinkedAt(s, j, nx, pv) && t[i] == s[j];
    }
  }

  /** `h` is on the list of its own run's count. */
  ghost predicate Filed(stacks: seq<seq<nat>>, r: Runs, h: nat)
    requires h in r
  {
    r[h] < |stacks| && h in stacks[r[h]]
  }

  ghost predicate Nodes(s: seq<nat>, r: Runs, c: nat) {
    forall h | h in s :: h in r && r[h] == c
  }

  /** Every bucket's list is well linked, and run `h` is on the list of its own count only. */
  ghost predicate Chains(stacks: seq<seq<nat>>, heads: seq<nat>, nx: seq<nat>, pv: seq<nat>, r: Runs) {
    && |stacks| == |heads|
    && (forall c | 0 <= c < |stacks| :: Chain(stacks[c], heads[c], nx, pv))
    && (forall c | 0 <= c < |stacks| :: Nodes(stacks[c], r, c))
    && (forall h {:trigger Filed(stacks, r, h)} | h in r :: Filed(stacks, r, h))
  }

  lemma ChainsLink(stacks: seq<seq<nat>>, heads: seq<nat>, nx: seq<nat>, pv: seq<nat>, r: Runs, h: nat, c: nat)
    requires Chains(stacks, heads, nx, pv, r) && c < |stacks| && h < |nx| == |pv| && h !in r
    ensures Chains(stacks[c := [h] + stacks[c]], heads[c := h],
                   nx[h := heads[c]], Set(pv[h := NO_SPAN], heads[c], h), r[h := c])
  {
    var stacks2, heads2, r2 := stacks[c := [h] + stacks[c]], heads[c := h], r[h := c];
    var nx2, pv2 := nx[h := heads[c]], Set(pv[h := NO_SPAN], heads[c], h);
    assert Chain(stacks[c], heads[c], nx, pv) && Nodes(stacks[c], r, c);
    forall d | 0 <= d < |stacks2| ensures Chain(stacks2[d], heads2[d], nx2, pv2) && Nodes(stacks2[d], r2, d) {
      assert Chain(stacks[d], heads[d], nx, pv) && Nodes(stacks[d], r, d);
      if d == c {
        ChainPush(stacks[c], heads[c], nx, pv, h);
      } else {
        assert heads[c] == NO_SPAN || heads[c] in stacks[c];
        ChainKept(stacks[d], heads[d], nx, pv, nx2, pv2);
      }
    }
    forall g | g in r2 ensures Filed(stacks2, r2, g) {
      assert g != h ==> Filed(stacks, r, g);
    }
  }

  lemma ChainsUnlink(stacks: seq<seq<nat>>, heads: seq<nat>, nx: seq<nat>, pv: seq<nat>, r: Runs, h: nat, k: nat)
    requires Chains(stacks, heads, nx, pv, r) && h in r && h < |nx| == |pv|
    requires r[h] < |stacks| && k < |stacks[r[h]]| && stacks[r[h]][k] == h
    ensures var c, p, n := r[h], pv[h], nx[h];
            Chains(stacks[c := Without(stacks[c], k)], if p == NO_SPAN then heads[c := n] else heads,
                   Set(nx, p, n)[h := NO_SPAN], Set(pv, n, p)[h := NO_SPAN], r - {h})
  {
    var c, p, n := r[h], pv[h], nx[h];
    var s, t := stacks[c], Without(stacks[c], k);
    var stacks2, heads2, r2 := stacks[c := t], if p == NO_SPAN then heads[c := n] else heads, r - {h};
    var nx2, pv2 := Set(nx, p, n)[h := NO_SPAN], Set(pv, n, p)[h := NO_SPAN];
    assert Chain(s, heads[c], nx, pv) && Nodes(s, r, c) && LinkedAt(s, k, nx, pv);
    assert p == NO_SPAN || p in s;
    assert n == NO_SPAN || n in s;
    forall d | 0 <= d < |stacks2| ensures Chain(stacks2[d], heads2[d], nx2, pv2) && Nodes(stacks2[d], r2, d) {
      assert Chain(stacks[d], heads[d], nx, pv) && Nodes(stacks[d], r, d);
      if d == c {
        ChainRemove(s, heads[c], nx, pv, k);
        forall g | g in t ensures g in s && g != h {
          var i :| 0 <= i < |t| && t[i] == g;
          assert g == s[if i < k then i else i + 1];
        }
      } else {
        ChainKept(stacks[d], heads[d], nx, pv, nx2, pv2);
      }
    }
    forall g | g in r2 ensures Filed(stacks2, r2, g) {
      assert Filed(stacks, r, g);
      if r2[g] == c {
        var i :| 0 <= i < |s| && s[i] == g;
        assert g == t[if i < k then i else i - 1];
      }
    }
  }

  // --- boundary tags -------------------------------------------------------------

  ghost predicate HeadEntryOk(hc: seq<nat>, r: Runs, i: nat)
    requires i < |hc|
  {
    hc[i] == if i in r then r[i] else 0
  }

  ghost predicate HeadTagOk(tc: seq<nat>, r: Runs, h: nat)
    requires h in r
  {
    r[h] >= 1 && h + r[h] <= |tc| && tc[h + r[h] - 1] == r[h]
  }

  ghost predicate TailTagOk(tc: seq<nat>, r: Runs, i: nat)
    requires i < |tc|
  {
    tc[i] != 0 ==> i + 1 >= tc[i] && i + 1 - tc[i] in r && r[i + 1 - tc[i]] == tc[i]
  }

  /** Head and tail tags are non-zero exactly at the ends of the runs, and hold their counts. */
  ghost predicate Tags(hc: seq<nat>, tc: seq<nat>, r: Runs) {
    && |hc| == |tc|
    && (forall i | 0 <= i < |hc| :: HeadEntryOk(hc, r, i))
    && (forall h {:trigger HeadTagOk(tc, r, h)} | h in r :: HeadTagOk(tc, r, h))
    && (forall i | 0 <= i < |tc| :: TailTagOk(tc, r, i))
  }

  lemma TagsLink(hc: seq<nat>, tc: seq<nat>, r: Runs, h: nat, c: nat)
    requires Tags(hc, tc, r) && Separated(r, |hc|) && c >= 1 && h + c <= |hc| && Apart(r, h, c)
    ensures Tags(hc[h := c], tc[h + c - 1 := c], r[h := c])
  {
    var r2, hc2, tc2 := r[h := c], hc[h := c], tc[h + c - 1 := c];
    assert h !in r;
    forall i | 0 <= i < |hc2| ensures HeadEntryOk(hc2, r2, i) {
      assert HeadEntryOk(hc, r, i);
    }
    forall i | 0 <= i < |tc2| ensures TailTagOk(tc2, r2, i) {
      assert TailTagOk(tc, r, i);
    }
    forall g | g in r2 ensures HeadTagOk(tc2, r2, g) {
      assert g != h ==> HeadTagOk(tc, r, g);
    }
  }

  lemma TagsUnlink(hc: seq<nat>, tc: seq<nat>, r: Runs, h: nat, c: nat)
    requires Tags(hc, tc, r) && Separated(r, |hc|) && h in r && r[h] == c
    ensures h + c <= |tc| && c >= 1 && Tags(hc[h := 0], tc[h + c - 1 := 0], r - {h})
  {
    assert HeadTagOk(tc, r, h);
    var r2, hc2, tc2 := r - {h}, hc[h := 0], tc[h + c - 1 := 0];
    forall i | 0 <= i < |hc2| ensures HeadEntryOk(hc2, r2, i) {
      assert HeadEntryOk(hc, r, i);
    }
    forall i | 0 <= i < |tc2| ensures TailTagOk(tc2, r2, i) {
      assert TailTagOk(tc, r, i);
    }
    forall g | g in r2 ensures HeadTagOk(tc2, r2, g) {
      assert HeadTagOk(tc, r, g) && (g < h || h < g);
    }
  }

  // --- occupancy bitmap ------------------------------------------------------------

  ghost predicate BucketBit(ws: seq<Word>, stacks: seq<seq<nat>>, c: nat)
    requires c / 64 < |ws|
  {
    c % 64 in ws[c / 64] <==> c < |stacks| && stacks[c] != []
  }

  /** Bit `c` is set exactly when bucket `c` holds a run. */
  ghost predicate Bits(ws: seq<Word>, stacks: seq<seq<nat>>) {
    |stacks| <= |ws| * 64 && forall c | 0 <= c < |ws| * 64 :: BucketBit(ws, stacks, c)
  }

  ghost predicate WordBit(ws: seq<Word>, ss: seq<Word>, w: nat)
    requires w / 64 < |ss|
  {
    w % 64 in ss[w / 64] <==> w < |ws| && ws[w] != {}
  }

  /** Summary bit `w` is set exactly when word `w` is not empty. */
  ghost predicate Summary(ws: seq<Word>, ss: seq<Word>) {
    |ws| <= |ss| * 64 && forall w | 0 <= w < |ss| * 64 :: WordBit(ws, ss, w)
  }

  lemma BitsUpdate(ws: seq<Word>, stacks: seq<seq<nat>>, c: nat, s: seq<nat>)
    requires Bits(ws, stacks) && c < |stacks|
    ensures Bits(ws[c / 64 := if s != [] then ws[c / 64] + {c % 64} else ws[c / 64] - {c % 64}], stacks[c := s])
  {
    var v := ws[c / 64 := if s != [] then ws[c / 64] + {c % 64} else ws[c / 64] - {c % 64}];
    var t := stacks[c := s];
    forall d | 0 <= d < |v| * 64 ensures BucketBit(v, t, d) {
      assert BucketBit(ws, stacks, d);
      assert d / 64 == c / 64 && d % 64 == c % 64 ==> d == c;
    }
  }

  lemma BitsKept(ws: seq<Word>, stacks: seq<seq<nat>>, c: nat, s: seq<nat>)
    requires Bits(ws, stacks) && c < |stacks| && stacks[c] != [] && s != []
    ensures Bits(ws, stacks[c := s])
  {
    var t := stacks[c := s];
    forall d | 0 <= d < |ws| * 64 ensures BucketBit(ws, t, d) {
      assert BucketBit(ws, stacks, d);
    }
  }

  lemma SummaryUpdate(ws: seq<Word>, ss: seq<Word>, w: nat, v: Word)
    requires Summary(ws, ss) && w < |ws|
    ensures Summary(ws[w := v], ss[w / 64 := if v != {} then ss[w / 64] + {w % 64} else ss[w / 64] - {w % 64}])
  {
    var ss2 := ss[w / 64 := if v != {} then ss[w / 64] + {w % 64} else ss[w / 64] - {w % 64}];
    var ws2 := ws[w := v];
    forall x | 0 <= x < |ss2| * 64 ensures WordBit(ws2, ss2, x) {
      assert WordBit(ws, ss, x);
      assert x / 64 == w / 64 && x % 64 == w % 64 ==> x == w;
    }
  }

  // --- the pool -------------------------------------------------------------

  class SpanPool {
    const numSpans: nat
    const bucketHead: array<nat>
    const next: array<nat>
    const prev: array<nat>
    const headCount: array<nat>
    const tailCount: array<nat>
    const l0: array<Word>
    const l1: array<Word>

    /** The recorded runs, and each bucket's stack from its top down. */
    ghost var runs: Runs
    ghost var stacks: seq<seq<nat>>

    ghost predicate Shape() {
      && 1 <= numSpans < NO_SPAN
      && bucketHead.Length == numSpans + 1
      && next.Length == prev.Length == headCount.Length == tailCount.Length == numSpans
      && l0.Length == numSpans / 64 + 1
      && l1.Length == (l0.Length + 63) / 64
      && bucketHead != next && bucketHead != prev && bucketHead != headCount && bucketHead != tailCount
      && next != prev && next != headCount && next != tailCount
      && prev != headCount && prev != tailCount
      && headCount != tailCount && l0 != l1
    }

    ghost predicate StacksOk()
      reads this, bucketHead, next, prev
    {
      Chains(stacks, bucketHead[..], next[..], prev[..], runs)
    }

    ghost predicate BitsOk()
      reads this, l0, l1
    {
      Bits(l0[..], stacks) && Summary(l0[..], l1[..])
    }

    ghost predicate Valid()
      reads this, bucketHead, next, prev, headCount, tailCount, l0, l1
    {
      && Shape() && Separated(runs, numSpans) && Tags(headCount[..], tailCount[..], runs) && StacksOk() && BitsOk()
    }

    ghost function Repr(): set<object> {
      {this, bucketHead, next, prev, headCount, tailCount, l0, l1}
    }

    /** The spans the pool holds free. */
    ghost function Free(): set<nat>
      reads this
    {
      FreeSpans(runs, numSpans)
    }

    lemma EmptyPoolIsValid()
      requires Shape() && runs == map[] && |stacks| == numSpans + 1
      requires forall c | 0 <= c <= numSpans :: stacks[c] == [] && bucketHead[c] == NO_SPAN
      requires forall i | 0 <= i < numSpans :: headCount[i] == tailCount[i] == 0
      requires forall w | 0 <= w < l0.Length :: l0[w] == {}
      requires forall w | 0 <= w < l1.Length :: l1[w] == {}
      ensures Valid()
    {
    }

    constructor (spans: nat)
      requires spans < NO_SPAN
      ensures Valid() && fresh(Repr())
      ensures numSpans == (if spans == 0 then 1 else spans) && runs == map[] && Free() == {}
    {
      var n := if spans == 0 then 1 else spans;
      numSpans := n;
      bucketHead := new nat[n + 1](_ => NO_SPAN);
      next := new nat[n](_ => NO_SPAN);
      prev := new nat[n](_ => NO_SPAN);
      headCount := new nat[n](_ => 0);
      tailCount := new nat[n](_ => 0);
      var l0Words := (n + 1 + 63) / 64;
      l0 := new Word[l0Words](_ => {});
      l1 := new Word[(l0Words + 63) / 64](_ => {});
      runs := map[];
      stacks := seq(n + 1, _ => []);
      new;
      EmptyPoolIsValid();
    }

    // --- occupancy bitmap ---------------------------------------------------

    method BitSet(c: nat)
      requires Shape() && c <= numSpans && Summary(l0[..], l1[..])
      modifies l0, l1
      ensures l0[..] == old(l0[..])[c / 64 := old(l0[..])[c / 64] + {c % 64}]
      ensures Summary(l0[..], l1[..])
    {
      var w := c / 64;
      SummaryUpdate(l0[..], l1[..], w, l0[w] + {c % 64});
      l0[w] := l0[w] + {c % 64};
      l1[w / 64] := l1[w / 64] + {w % 64};
      assert l1[..] == old(l1[..])[w / 64 := old(l1[..])[w / 64] + {w % 64}];
    }

    method BitClear(c: nat)
      requires Shape() && c <= numSpans && Summary(l0[..], l1[..])
      modifies l0, l1
      ensures l0[..] == old(l0[..])[c / 64 := old(l0[..])[c / 64] - {c % 64}]
      ensures Summary(l0[..], l1[..])
    {
      var w := c / 64;
      SummaryUpdate(l0[..], l1[..], w, l0[w] - {c % 64});
      assert WordBit(l0[..], l1[..], w);
      assert l0[w] != {} ==> l1[w / 64] == l1[w / 64] + {w % 64};
      l0[w] := l0[w] - {c % 64};
      if l0[w] == {} {
        l1[w / 64] := l1[w / 64] - {w % 64};
        assert l1[..] == old(l1[..])[w / 64 := old(l1[..])[w / 64] - {w % 64}];
      } else {
        assert l1[..] == old(l1[..])[w / 64 := old(l1[..])[w / 64] + {w % 64}];
      }
    }

    // What the bitmaps say about one bucket and one summary word.

    lemma BucketOfBit(w: nat, b: nat)
      requires Shape() && BitsOk() && |stacks| == numSpans + 1 && w < l0.Length && b < 64
      ensures b in l0[w] <==> w * 64 + b < |stacks| && stacks[w * 64 + b] != []
    {
      var c := w * 64 + b;
      assert c / 64 == w && c % 64 == b;
      assert BucketBit(l0[..], stacks, c);
    }

    lemma WordOfBit(i: nat, b: nat)
      requires Shape() && BitsOk() && |stacks| == numSpans + 1 && i < l1.Length && b < 64
      ensures b in l1[i] <==> i * 64 + b < l0.Length && l0[i * 64 + b] != {}
    {
      var w := i * 64 + b;
      assert w / 64 == i && w % 64 == b;
      assert WordBit(l0[..], l1[..], w);
    }

    /** Buckets `c` up to the first of bitmap word `v` are empty. */
    ghost predicate NoneBelow(c: nat, v: nat)
      requires |stacks| == numSpans + 1
      reads this
    {
      forall d | c <= d < v * 64 && d <= numSpans :: stacks[d] == []
    }

    lemma EmptyInWord(c: nat, w: nat, lo: nat, hi: nat)
      requires Shape() && BitsOk() && |stacks| == numSpans + 1 && w < l0.Length && lo <= hi <= 64
      requires forall b | lo <= b < hi :: b !in l0[w]
      requires forall d | c <= d < w * 64 + lo && d <= numSpans :: stacks[d] == []
      ensures forall d | c <= d < w * 64 + hi && d <= numSpans :: stacks[d] == []
    {
      forall d | w * 64 + lo <= d < w * 64 + hi && d <= numSpans ensures stacks[d] == [] {
        BucketOfBit(w, d - w * 64);
      }
    }

    lemma {:induction false} EmptyWords(c: nat, v: nat, u: nat)
      requires Shape() && BitsOk() && |stacks| == numSpans + 1 && NoneBelow(c, v) && v <= u
      requires forall x | v <= x < u && x < l0.Length :: l0[x] == {}
      ensures NoneBelow(c, u)
      decreases u - v
    {
      if v < u {
        if v < l0.Length {
          EmptyInWord(c, v, 0, 64);
        }
        EmptyWords(c, v + 1, u);
      }
    }

    /** Summary word `i` has no bit in `[lo, hi)`, so the words it stands for there are empty. */
    lemma EmptyInSummary(c: nat, i: nat, lo: nat, hi: nat)
      requires Shape() && BitsOk() && |stacks| == numSpans + 1 && i < l1.Length && lo <= hi <= 64
      requires forall b | lo <= b < hi :: b !in l1[i]
      requires NoneBelow(c, i * 64 + lo)
      ensures NoneBelow(c, i * 64 + hi)
    {
      forall x | i * 64 + lo <= x < i * 64 + hi && x < l0.Length ensures l0[x] == {} {
        WordOfBit(i, x - i * 64);
      }
      EmptyWords(c, i * 64 + lo, i * 64 + hi);
    }

    /** Serve the search from the lowest bit of `m`, the bits of summary word `i` from `lo` up. */
    method FirstInSummary(ghost c: nat, i: nat, ghost lo: nat, m: Word) returns (r: nat)
      requires Shape() && BitsOk() && |stacks| == numSpans + 1 && i < l1.Length && lo < 64
      requires NoneBelow(c, i * 64 + lo) && c <= (i * 64 + lo) * 64
      requires m == MaskFrom(l1[i], lo) && m != {}
      ensures c <= r <= numSpans && stacks[r] != []
      ensures forall d | c <= d < r :: stacks[d] == []
    {
      var t := TrailingZeros(m);
      WordOfBit(i, t);
      EmptyInSummary(c, i, lo, t);
      var nw := i * 64 + t;
      var b := TrailingZeros(l0[nw]);
      BucketOfBit(nw, b);
      EmptyInWord(c, nw, 0, b);
      r := nw * 64 + b;
    }

    /** Search on from bitmap word `w`, which is exhausted, by way of the summary. */
    method FirstAboveWord(ghost c: nat, w: nat) returns (r: Option<nat>)
      requires Shape() && BitsOk() && |stacks| == numSpans + 1 && w < l0.Length
      requires NoneBelow(c, w + 1) && c <= (w + 1) * 64
      ensures r.Some? ==> c <= r.value <= numSpans && stacks[r.value] != []
      ensures r.Some? ==> forall d | c <= d < r.value :: stacks[d] == []
      ensures r.None? ==> forall d | c <= d <= numSpans :: stacks[d] == []
    {
      var lw := w / 64;
      var wb := w % 64;
      if wb < 63 {
        var m := MaskFrom(l1[lw], wb + 1);
        if m != {} {
          var x := FirstInSummary(c, lw, wb + 1, m);
          return Some(x);
        }
        EmptyInSummary(c, lw, wb + 1, 64);
      }
      var li := lw + 1;
      while li < l1.Length
        invariant lw + 1 <= li <= l1.Length
        invariant NoneBelow(c, li * 64)
      {
        if l1[li] != {} {
          assert l1[li] == MaskFrom(l1[li], 0);
          var x := FirstInSummary(c, li, 0, l1[li]);
          return Some(x);
        }
        EmptyInSummary(c, li, 0, 64);
        li := li + 1;
      }
      return None;
    }

    /** The least non-empty bucket at or above `c`. */
    method FindFirstSetGe(c: nat) returns (r: Option<nat>)
      requires Shape() && BitsOk() && |stacks| == numSpans + 1
      ensures r.Some? ==> c <= r.value <= numSpans && stacks[r.value] != []
      ensures r.Some? ==> forall d | c <= d < r.value :: stacks[d] == []
      ensures r.None? ==> forall d | c <= d <= numSpans :: stacks[d] == []
    {
      if c >= l0.Length * 64 {
        return None;
      }
      var w := c / 64;
      var masked := MaskFrom(l0[w], c % 64);
      if masked != {} {
        var b := TrailingZeros(masked);
        BucketOfBit(w, b);
        EmptyInWord(c, w, c % 64, b);
        return Some(w * 64 + b);
      }
      EmptyInWord(c, w, c % 64, 64);
      r := FirstAboveWord(c, w);
    }

    // --- bucket stacks --------------------------------------------------------

    /** Where run `head` sits on its bucket's stack. */
    lemma DepthOf(head: nat) returns (k: nat)
      requires Valid() && head in runs
      ensures runs[head] < |stacks| && k < |stacks[runs[head]]| && stacks[runs[head]][k] == head
    {
      assert Filed(stacks, runs, head);
      k :| 0 <= k < |stacks[runs[head]]| && stacks[runs[head]][k] == head;
    }

    /** The links of node `k` of a bucket are other nodes, absent at the two ends of the list. */
    lemma Neighbours(c: nat, k: nat)
      requires Valid() && c < |stacks| && k < |stacks[c]|
      ensures c <= numSpans
      ensures var h := stacks[c][k];
              && h < numSpans && prev[h] != h && next[h] != h
              && (prev[h] == NO_SPAN <==> k == 0) && (next[h] == NO_SPAN <==> k == |stacks[c]| - 1)
              && (prev[h] < numSpans || k == 0) && (next[h] < numSpans || k == |stacks[c]| - 1)
    {
      var s := stacks[c];
      assert Chain(s, bucketHead[..][c], next[..], prev[..]);
      assert LinkedAt(s, k, next[..], prev[..]);
      if k > 0 { assert LinkedAt(s, k - 1, next[..], prev[..]); }
      if k + 1 < |s| { assert LinkedAt(s, k + 1, next[..], prev[..]); }
    }

    /** The writes of `Link`, array by array. */
    method LinkWrites(head: nat, count: nat)
      requires Shape() && Summary(l0[..], l1[..]) && count >= 1 && head + count <= numSpans
      requires bucketHead[count] == NO_SPAN || bucketHead[count] < numSpans
      modifies bucketHead, next, prev, headCount, tailCount, l0, l1
      ensures bucketHead[..] == old(bucketHead[..])[count := head]
      ensures next[..] == old(next[..])[head := old(bucketHead[count])]
      ensures prev[..] == Set(old(prev[..])[head := NO_SPAN], old(bucketHead[count]), head)
      ensures headCount[..] == old(headCount[..])[head := count]
      ensures tailCount[..] == old(tailCount[..])[head + count - 1 := count]
      ensures l0[..] == old(l0[..])[count / 64 := old(l0[..])[count / 64] + {count % 64}]
      ensures Summary(l0[..], l1[..])
    {
      var top := bucketHead[count];
      next[head] := top;
      prev[head] := NO_SPAN;
      if top != NO_SPAN {
        prev[top] := head;
      }
      bucketHead[count] := head;
      headCount[head] := count;
      tailCount[head + count - 1] := count;
      BitSet(count);
    }

    /** Put free run `head` on its bucket, stamp its tags and its occupancy bit. */
    method Link(head: nat, count: nat)
      requires Valid() && count >= 1 && head + count <= numSpans && Apart(runs, head, count)
      modifies this, bucketHead, next, prev, headCount, tailCount, l0, l1
      ensures Valid()
      ensures runs == old(runs)[head := count]
      ensures stacks == old(stacks)[count := [head] + old(stacks)[count]]
    {
      AddRun(runs, numSpans, head, count);
      ChainsLink(stacks, bucketHead[..], next[..], prev[..], runs, head, count);
      TagsLink(headCount[..], tailCount[..], runs, head, count);
      assert Chain(stacks[count], bucketHead[..][count], next[..], prev[..]);
      if stacks[count] != [] { Neighbours(count, 0); }
      BitsUpdate(l0[..], stacks, count, [head] + stacks[count]);
      LinkWrites(head, count);
      runs := runs[head := count];
      stacks := stacks[count := [head] + stacks[count]];
    }

    /** The writes of `Unlink`, array by array. */
    method UnlinkWrites(head: nat, count: nat)
      requires Shape() && Summary(l0[..], l1[..]) && 1 <= count && head + count <= numSpans
      requires prev[head] == NO_SPAN || prev[head] < numSpans
      requires next[head] == NO_SPAN || next[head] < numSpans
      requires prev[head] != head && next[head] != head
      modifies bucketHead, next, prev, headCount, tailCount, l0, l1
      ensures bucketHead[..] == if old(prev[head]) == NO_SPAN then old(bucketHead[..])[count := old(next[head])]
                                else old(bucketHead[..])
      ensures next[..] == Set(old(next[..]), old(prev[head]), old(next[head]))[head := NO_SPAN]
      ensures prev[..] == Set(old(prev[..]), old(next[head]), old(prev[head]))[head := NO_SPAN]
      ensures headCount[..] == old(headCount[..])[head := 0]
      ensures tailCount[..] == old(tailCount[..])[head + count - 1 := 0]
      ensures l0[..] == if old(prev[head]) == NO_SPAN == old(next[head])
                        then old(l0[..])[count / 64 := old(l0[..])[count / 64] - {count % 64}] else old(l0[..])
      ensures Summary(l0[..], l1[..])
    {
      var p := prev[head];
      var n := next[head];
      if p != NO_SPAN {
        next[p] := n;
      } else {
        bucketHead[count] := n;
        if n == NO_SPAN {
          BitClear(count);
        }
      }
      if n != NO_SPAN {
        prev[n] := p;
      }
      headCount[head] := 0;
      tailCount[head + count - 1] := 0;
      next[head] := NO_SPAN;
      prev[head] := NO_SPAN;
    }

    /** Take free run `head` off its bucket, wherever it is on it, and clear its tags. */
    method Unlink(head: nat, count: nat, ghost k: nat)
      requires Valid() && head in runs && runs[head] == count
      requires count < |stacks| && k < |stacks[count]| && stacks[count][k] == head
      modifies this, bucketHead, next, prev, headCount, tailCount, l0, l1
      ensures Valid()
      ensures runs == old(runs) - {head}
      ensures stacks == old(stacks)[count := Without(old(stacks)[count], k)]
    {
      RemoveRun(runs, numSpans, head);
      Neighbours(count, k);
      ChainsUnlink(stacks, bucketHead[..], next[..], prev[..], runs, head, k);
      TagsUnlink(headCount[..], tailCount[..], runs, head, count);
      if |stacks[count]| > 1 {
        BitsKept(l0[..], stacks, count, Without(stacks[count], k));
      } else {
        BitsUpdate(l0[..], stacks, count, Without(stacks[count], k));
      }
      UnlinkWrites(head, count);
      runs := runs - {head};
      stacks := stacks[count := Without(stacks[count], k)];
    }

    // --- public operations ------------------------------------------------------

    lemma NoLargeRun(n: nat, m: nat)
      requires Valid() && |stacks| == numSpans + 1
      requires forall d | n <= d < m && d <= numSpans :: stacks[d] == []
      ensures forall h | h in runs :: runs[h] < n || m <= runs[h]
    {
      forall h | h in runs ensures runs[h] < n || m <= runs[h] {
        assert Filed(stacks, runs, h);
      }
    }

    /** `h` heads a shortest run of at least `n` spans, and is on top of its stack. */
    ghost predicate BestFit(n: nat, h: nat)
      reads this
    {
      && h in runs && 1 <= n <= runs[h]
      && (forall k | k in runs && runs[k] >= n :: runs[h] <= runs[k])
      && runs[h] < |stacks| && stacks[runs[h]] != [] && stacks[runs[h]][0] == h
    }

    /** Take `[head, head + n)` off run `head` of `m` spans, re-filing what is left. */
    method TakeOff(head: nat, m: nat, n: nat)
      requires Valid() && head in runs && runs[head] == m && 1 <= n <= m
      requires m < |stacks| && stacks[m] != [] && stacks[m][0] == head
      modifies this, bucketHead, next, prev, headCount, tailCount, l0, l1
      ensures Valid()
      ensures n == m ==> runs == old(runs) - {head}
      ensures n < m ==> runs == (old(runs) - {head})[head + n := m - n]
    {
      hide Tags, Bits, Summary, Chains;
      Unlink(head, m, 0);
      if m > n {
        Link(head + n, m - n);
      }
    }

    /** A run of `n` spans, off the front of a shortest sufficient run; the rest is re-filed. */
    method Alloc(n: nat) returns (r: Option<nat>)
      requires Valid()
      modifies this, bucketHead, next, prev, headCount, tailCount, l0, l1
      ensures Valid()
      ensures r.None? <==> n == 0 || forall h | h in old(runs) :: old(runs)[h] < n
      ensures r.None? ==> runs == old(runs) && stacks == old(stacks)
      ensures r.Some? ==> old(BestFit(n, r.value)) && runs == TakeFront(old(runs), r.value, n)
      ensures r.Some? ==> Range(r.value, n) <= old(Free()) && Free() == old(Free()) - Range(r.value, n)
    {
      if n == 0 || n > numSpans {
        return None;
      }
      var f := FindFirstSetGe(n);
      if f.None? {
        NoLargeRun(n, numSpans + 1);
        return None;
      }
      var m := f.value;
      NoLargeRun(n, m);
      var head := bucketHead[m];
      ghost var r0 := runs;
      TakeOff(head, m, n);
      assert runs == TakeFront(r0, head, n);
      TakeFrontFrees(r0, numSpans, head, n);
      return Some(head);
    }

    /** Absorb the free run that starts where `[h, h + c)` ends, if there is one. */
    method MergeRight(h: nat, c: nat) returns (d: nat)
      requires Valid() && Clear(runs, h, c) && c >= 1 && h + c <= numSpans
      modifies this, bucketHead, next, prev, headCount, tailCount, l0, l1
      ensures Valid()
      ensures Clear(runs, h, d) && RightApart(runs, h, d) && d >= 1 && h + d <= numSpans
      ensures Free() + Range(h, d) == old(Free()) + Range(h, c)
    {
      d := c;
      var right := h + c;
      if right < numSpans {
        var rc := headCount[right];
        assert headCount[..][right] == rc && HeadEntryOk(headCount[..], runs, right);
        if rc != 0 {
          AbsorbRight(runs, numSpans, h, c);
          ghost var k := DepthOf(right);
          Unlink(right, rc, k);
          d := c + rc;
        }
      }
    }

    /** Absorb the free run that ends where `[h, h + c)` starts, if there is one. */
    method MergeLeft(h: nat, c: nat) returns (g: nat, d: nat)
      requires Valid() && Clear(runs, h, c) && RightApart(runs, h, c) && c >= 1 && h + c <= numSpans
      modifies this, bucketHead, next, prev, headCount, tailCount, l0, l1
      ensures Valid()
      ensures Apart(runs, g, d) && d >= 1 && g + d <= numSpans
      ensures Free() + Range(g, d) == old(Free()) + Range(h, c)
    {
      g, d := h, c;
      if h > 0 {
        var lc := tailCount[h - 1];
        assert tailCount[..][h - 1] == lc && TailTagOk(tailCount[..], runs, h - 1);
        if lc != 0 {
          g := h - lc;
          AbsorbLeft(runs, numSpans, h, c, g);
          ghost var k := DepthOf(g);
          Unlink(g, lc, k);
          d := c + lc;
        } else {
          NoRunEndsAt(h);
        }
      }
    }

    lemma NoRunEndsAt(h: nat)
      requires Valid() && 0 < h <= numSpans && tailCount[h - 1] == 0
      ensures forall k | k in runs :: k + runs[k] != h
    {
      forall k | k in runs ensures k + runs[k] != h {
        assert HeadTagOk(tailCount[..], runs, k);
      }
    }

    /** Give back `[head, head + count)`, none of it free, merging it with the runs it touches. */
    method Release(head: nat, count: nat)
      requires Valid() && count >= 1 && head + count <= numSpans && Range(head, count) !! Free()
      modifies this, bucketHead, next, prev, headCount, tailCount, l0, l1
      ensures Valid()
      ensures Free() == old(Free()) + Range(head, count)
    {
      DisjointIsClear(runs, numSpans, head, count);
      var c := MergeRight(head, count);
      var h;
      h, c := MergeLeft(head, c);
      AddRun(runs, numSpans, h, c);
      Link(h, c);
    }
  }
  // --- whole histories ----------------------------------------------------------

  /** Giving back what an `alloc` took restores the recorded runs, whatever merges it takes. */
  lemma AllocThenFreeRestores(r: Runs, s: nat, h: nat, n: nat, q: Runs)
    requires Separated(r, s) && h in r && 1 <= n <= r[h]
    requires Separated(q, s) && FreeSpans(q, s) == FreeSpans(TakeFront(r, h, n), s) + Range(h, n)
    ensures q == r
  {
    TakeFrontFrees(r, s, h, n);
    RunsAreCanonical(q, r, s);
  }

  datatype Run = Run(head: nat, count: nat)

  datatype Op = DoAlloc(n: nat) | DoFree(k: nat)

  ghost function SpansOf(r: Run): set<nat> {
    Range(r.head, r.count)
  }

  ghost predicate InBounds(r: Run, n: nat) {
    r.count >= 1 && r.head + r.count <= n
  }

  /** The handed-out runs are in bounds, disjoint from each other and from the free spans, and
      no span is lost. */
  ghost predicate Partition(live: seq<Run>, free: set<nat>, n: nat) {
    && (forall k | 0 <= k < |live| :: InBounds(live[k], n) && SpansOf(live[k]) !! free)
    && (forall j, k | 0 <= j < k < |live| :: SpansOf(live[j]) !! SpansOf(live[k]))
    && (forall i: nat | i < n :: i in free || Held(live, i))
  }

  ghost predicate Held(live: seq<Run>, i: nat) {
    exists k :: 0 <= k < |live| && i in SpansOf(live[k])
  }

  lemma PartitionAfterAlloc(live: seq<Run>, free: set<nat>, n: nat, r: Run, free2: set<nat>)
    requires Partition(live, free, n) && InBounds(r, n)
    requires SpansOf(r) <= free && free2 == free - SpansOf(r)
    ensures Partition(live + [r], free2, n)
  {
    var l2 := live + [r];
    forall i: nat | i < n ensures i in free2 || Held(l2, i) {
      if i in SpansOf(r) {
        assert i in SpansOf(l2[|live|]);
      } else if i !in free {
        var k :| 0 <= k < |live| && i in SpansOf(live[k]);
        assert i in SpansOf(l2[k]);
      }
    }
  }

  lemma PartitionAfterFree(live: seq<Run>, free: set<nat>, n: nat, k: nat, free2: set<nat>)
    requires Partition(live, free, n) && k < |live| && free2 == free + SpansOf(live[k])
    ensures Partition(live[..k] + live[k + 1..], free2, n)
  {
    var l2 := live[..k] + live[k + 1..];
    assert forall j | 0 <= j < |l2| :: l2[j] == live[if j < k then j else j + 1];
    forall i: nat | i < n ensures i in free2 || Held(l2, i) {
      if i !in free2 {
        var j :| 0 <= j < |live| && i in SpansOf(live[j]);
        assert i in SpansOf(l2[if j < k then j else j - 1]);
      }
    }
  }

  /** One operation of a stream over `n` spans turns the live runs `live` into `live2`: an allocation adds a run of the length
      asked for, or there are not so many spans in a row that no live run holds; a free takes its run away. */
  ghost predicate Served(live: seq<Run>, op: Op, live2: seq<Run>, n: nat) {
    match op
    case DoAlloc(m) =>
      || (m > 0 && |live2| == |live| + 1 && live2[..|live|] == live && live2[|live|].count == m)
      || (live2 == live && (m == 0 || forall h: nat | h + m <= n :: Blocked(live, h, m)))
    case DoFree(k) => live2 == if k < |live| then live[..k] + live[k + 1..] else live
  }

  /** A live run holds one of the `m` spans from `h` on. */
  ghost predicate Blocked(live: seq<Run>, h: nat, m: nat) {
    exists i: nat :: h <= i < h + m && Held(live, i)
  }

  /** No free run long enough means no gap long enough between the live runs. */
  lemma NoGap(r: Runs, live: seq<Run>, n: nat, m: nat)
    requires Separated(r, n) && Partition(live, FreeSpans(r, n), n) && m > 0 && forall h | h in r :: r[h] < m
    ensures Served(live, DoAlloc(m), live, n)
  {
    forall h: nat | h + m <= n ensures Blocked(live, h, m) {
      if Range(h, m) <= FreeSpans(r, n) {
        var k := IntervalInsideOneRun(r, n, h, m);
      } else {
        var i :| i in Range(h, m) && i !in FreeSpans(r, n);
        assert Held(live, i);
      }
    }
  }

  /** Any stream of allocations and frees over a wholly free arena, each served as it should be, leaves every span free or
      in exactly one of the runs still live. `lives` are the live runs before and after each operation. */
  method Serve(p: SpanPool, ops: seq<Op>) returns (live: seq<Run>, ghost lives: seq<seq<Run>>)
    requires p.Valid() && p.Free() == Range(0, p.numSpans)
    modifies p.Repr()
    ensures p.Valid() && Partition(live, p.Free(), p.numSpans)
    ensures |lives| == |ops| + 1 && lives[0] == [] && lives[|ops|] == live
    ensures forall i | 0 <= i < |ops| :: Served(lives[i], ops[i], lives[i + 1], p.numSpans)
  {
    live, lives := [], [[]];
    for i := 0 to |ops|
      invariant p.Valid() && Partition(live, p.Free(), p.numSpans)
      invariant |lives| == i + 1 && lives[0] == [] && lives[i] == live
      invariant forall j | 0 <= j < i :: Served(lives[j], ops[j], lives[j + 1], p.numSpans)
    {
      live := ServeOne(p, ops[i], live);
      lives := lives + [live];
    }
  }

  method ServeOne(p: SpanPool, op: Op, live0: seq<Run>) returns (live: seq<Run>)
    requires p.Valid() && Partition(live0, p.Free(), p.numSpans)
    modifies p.Repr()
    ensures p.Valid() && Partition(live, p.Free(), p.numSpans) && Served(live0, op, live, p.numSpans)
  {
    live := live0;
    ghost var free, runs := p.Free(), p.runs;
    match op {
      case DoAlloc(n) =>
        var h := p.Alloc(n);
        if h.Some? {
          assert h.value in Range(h.value, n) && h.value + n - 1 in Range(h.value, n);
          PartitionAfterAlloc(live, free, p.numSpans, Run(h.value, n), p.Free());
          live := live + [Run(h.value, n)];
        } else if n > 0 {
          NoGap(runs, live, p.numSpans, n);
        }
      case DoFree(k) =>
        if k < |live| {
          p.Release(live[k].head, live[k].count);
          PartitionAfterFree(live, free, p.numSpans, k, p.Free());
          live := live[..k] + live[k + 1..];
        }
    }
  }

  /** ... and freeing what is still live makes the arena one run again, whatever the stream was. */
  method Stress(p: SpanPool, ops: seq<Op>) returns (r: Option<nat>)
    requires p.Valid() && p.Free() == Range(0, p.numSpans)
    modifies p.Repr()
    ensures p.Valid() && r == Some(0) && p.Free() == {}
  {
    var live;
    ghost var lives;
    live, lives := Serve(p, ops);
    while live != []
      invariant p.Valid() && Partition(live, p.Free(), p.numSpans)
      decreases |live|
    {
      ghost var free := p.Free();
      p.Release(live[0].head, live[0].count);
      PartitionAfterFree(live, free, p.numSpans, 0, p.Free());
      live := live[..0] + live[1..];
    }
    forall i: nat | i < p.numSpans ensures i in p.Free() {
      assert !Held(live, i);
    }
    assert p.Free() == Range(0, p.numSpans);
    AllFreeIsOneRun(p.runs, p.numSpans);
    assert 0 in p.runs && p.runs[0] == p.numSpans;
    r := p.Alloc(p.numSpans);
  }
}
