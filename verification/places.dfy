/** Conservation bookkeeping: things of type `E`, each kept at places of type `P`. */
module Places {

  type Layout<!P, !E> = map<P, set<E>>

  function Get<P, E>(m: Layout<P, E>, p: P): set<E> {
    if p in m then m[p] else {}
  }

  /** Nothing is at two places. */
  ghost predicate Exclusive<P(!new), E(!new)>(m: Layout<P, E>) {
    forall p, q, e | e in Get(m, p) && e in Get(m, q) :: p == q
  }

  /** `e` is somewhere. */
  ghost predicate Somewhere<P(!new), E>(m: Layout<P, E>, e: E) {
    exists p :: e in Get(m, p)
  }

  function Put<P, E>(m: Layout<P, E>, p: P, x: set<E>): (r: Layout<P, E>) {
    m[p := Get(m, p) + x]
  }

  function Drop<P, E>(m: Layout<P, E>, p: P, x: set<E>): (r: Layout<P, E>) {
    m[p := Get(m, p) - x]
  }

  function Move<P, E>(m: Layout<P, E>, p: P, q: P, x: set<E>): (r: Layout<P, E>) {
    Put(Drop(m, p, x), q, x)
  }

  /** What a move leaves at each place. */
  lemma GetMove<P(!new), E>(m: Layout<P, E>, p: P, q: P, x: set<E>)
    requires p != q
    ensures forall r :: Get(Move(m, p, q, x), r) ==
                        if r == q then Get(m, q) + x else if r == p then Get(m, p) - x else Get(m, r)
  {
  }

  /** Moving what really is at `p` keeps everything in exactly the places count it had. */
  lemma MoveKeeps<P(!new), E(!new)>(m: Layout<P, E>, p: P, q: P, x: set<E>)
    requires Exclusive(m) && x <= Get(m, p)
    ensures Exclusive(Move(m, p, q, x))
    ensures forall e :: Somewhere(Move(m, p, q, x), e) <==> Somewhere(m, e)
  {
    var n := Move(m, p, q, x);
    forall a, b, e | e in Get(n, a) && e in Get(n, b) ensures a == b {
      assert e in x ==> e in Get(m, p);
      assert a != q || e !in x ==> e in Get(m, a);
      assert b != q || e !in x ==> e in Get(m, b);
    }
    forall e ensures Somewhere(n, e) <==> Somewhere(m, e) {
      if Somewhere(m, e) {
        var r :| e in Get(m, r);
        assert e in Get(n, if e in x then q else r);
      }
      if Somewhere(n, e) {
        var r :| e in Get(n, r);
        assert e in Get(m, if e in x then p else r);
      }
    }
  }

  lemma PutKeeps<P(!new), E(!new)>(m: Layout<P, E>, p: P, x: set<E>)
    requires Exclusive(m) && forall e | e in x :: !Somewhere(m, e)
    ensures Exclusive(Put(m, p, x))
    ensures forall e :: Somewhere(Put(m, p, x), e) <==> Somewhere(m, e) || e in x
  {
    var n := Put(m, p, x);
    forall a, b, e | e in Get(n, a) && e in Get(n, b) ensures a == b {
      assert a != p || e !in x ==> e in Get(m, a);
      assert b != p || e !in x ==> e in Get(m, b);
    }
    forall e ensures Somewhere(n, e) <==> Somewhere(m, e) || e in x {
      if e in x { assert e in Get(n, p); }
      if Somewhere(m, e) {
        var r :| e in Get(m, r);
        assert e in Get(n, r);
      }
      if Somewhere(n, e) && e !in x {
        var r :| e in Get(n, r);
        assert e in Get(m, r);
      }
    }
  }

  lemma DropKeeps<P(!new), E(!new)>(m: Layout<P, E>, p: P, x: set<E>)
    requires Exclusive(m) && x <= Get(m, p)
    ensures Exclusive(Drop(m, p, x))
    ensures forall e :: Somewhere(Drop(m, p, x), e) <==> Somewhere(m, e) && e !in x
  {
    var n := Drop(m, p, x);
    forall a, b, e | e in Get(n, a) && e in Get(n, b) ensures a == b {
      assert e in Get(m, a) && e in Get(m, b);
    }
    forall e ensures Somewhere(n, e) <==> Somewhere(m, e) && e !in x {
      if Somewhere(m, e) && e !in x {
        var r :| e in Get(m, r);
        assert e in Get(n, r);
      }
      if Somewhere(n, e) {
        var r :| e in Get(n, r);
        assert e in Get(m, r);
        assert e in x ==> e in Get(m, p);
      }
    }
  }
}
