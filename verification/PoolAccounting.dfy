/** Which pool operations keep the bitmap, the nibble map and the counters in agreement. */
module PoolAccounting {
  import opened Basics
  import opened TxConfig
  import opened PoolModel

  lemma OwnedBound(c: Config, p: Pool, q: nat)
    requires Shaped(c, p)
    ensures |Owned(c, p, q)| <= c.numTokens < 256
  {
    BoundedCard(Owned(c, p, q), c.numTokens);
  }

  // Assign ----------------------------------------------------------------

  ghost predicate Assignable(c: Config, p: Pool, q: nat, d: nat) {
    && Shaped(c, p) && q < AC_MAX && d < c.numTokens && d !in p.busy
    && (d < c.Reserved() ==> d % AC_MAX == q)
    && (d >= c.Reserved() ==> q < AC_MC)
  }

  lemma AssignOwnedBy(c: Config, p: Pool, q: nat, d: nat, e: nat, r: nat)
    requires Assignable(c, p, q, d) && e < c.numTokens && r < AC_MAX
    requires d >= c.Reserved() ==> NibbleFits(c, p, d)
    ensures e != d ==> OwnedBy(c, Assign(c, p, q, d), e, r) == OwnedBy(c, p, e, r)
    ensures OwnedBy(c, Assign(c, p, q, d), d, r) <==> r == q
  {
    if d >= c.Reserved() && r < AC_MC {
      if e >= c.Reserved() && (e != d || r != q) { SpareBitDistinct(c, d, q, e, r); }
      if r != q { SpareBitDistinct(c, d, q, d, r); }
    }
  }

  lemma AssignOwned(c: Config, p: Pool, q: nat, d: nat, r: nat)
    requires Assignable(c, p, q, d) && r < AC_MAX
    requires d >= c.Reserved() ==> NibbleFits(c, p, d)
    ensures Owned(c, Assign(c, p, q, d), r) == if r == q then Owned(c, p, r) + {d} else Owned(c, p, r)
  {
    var after := Owned(c, Assign(c, p, q, d), r);
    var expected := if r == q then Owned(c, p, r) + {d} else Owned(c, p, r);
    forall e | e in after ensures e in expected {
      AssignOwnedBy(c, p, q, d, e, r);
    }
    forall e | e in expected ensures e in after {
      AssignOwnedBy(c, p, q, d, e, r);
    }
  }

  lemma AssignNibble(c: Config, p: Pool, q: nat, d: nat, e: nat)
    requires Assignable(c, p, q, d) && c.Reserved() <= e < c.numTokens && NibbleFits(c, p, e)
    requires d >= c.Reserved() ==> NibbleFits(c, p, d)
    ensures NibbleFits(c, Assign(c, p, q, d), e)
  {
    var p' := Assign(c, p, q, d);
    forall r: nat | r < AC_MC
      ensures SpareBit(c, e, r) in p'.spare <==> SpareBit(c, e, r) in p.spare || (e == d && r == q)
    {
      AssignOwnedBy(c, p, q, d, e, r);
    }
    if e == d {
      assert OneBit(c, p', d, q);
    } else if e in p.busy {
      var r: nat :| 0 <= r < AC_MC && OneBit(c, p, e, r);
      assert OneBit(c, p', e, r);
    }
  }

  lemma AssignAccounted(c: Config, p: Pool, q: nat, d: nat)
    requires Accounted(c, p) && Assignable(c, p, q, d)
    ensures Accounted(c, Assign(c, p, q, d))
    ensures Owner(c, Assign(c, p, q, d), d) == q
  {
    var p' := Assign(c, p, q, d);
    forall r | 0 <= r < AC_MAX ensures p'.out[r] == |Owned(c, p', r)| {
      AssignOwned(c, p, q, d, r);
      OwnedBound(c, p, r);
    }
    forall e | c.Reserved() <= e < c.numTokens ensures NibbleFits(c, p', e) {
      AssignNibble(c, p, q, d, e);
    }
    AssignOwnedBy(c, p, q, d, d, q);
    OwnerIsTrue(c, p', d);
  }

  /** No operation on one token changes the owner that TX-done works out for another. */
  lemma AssignOwner(c: Config, p: Pool, q: nat, d: nat, e: nat)
    requires Assignable(c, p, q, d) && e < c.numTokens && e != d
    ensures Owner(c, Assign(c, p, q, d), e) == Owner(c, p, e)
  {
    if d >= c.Reserved() && e >= c.Reserved() {
      SpareBitDistinct(c, d, q, e, AC_BK);
      SpareBitDistinct(c, d, q, e, AC_BE);
      SpareBitDistinct(c, d, q, e, AC_VI);
      SpareBitDistinct(c, d, q, e, AC_VO);
    }
  }

  /**
   Handing out a free token keeps the records in agreement exactly when it is not a spare for the
   multicast queue: the bit for queue 4 is the first bit of the next spare's nibble.
   */
  lemma AssignAccountedIff(c: Config, p: Pool, q: nat)
    requires Accounted(c, p) && q < AC_MAX && FindFree(c, p.busy, q).Some?
    ensures var d := FindFree(c, p.busy, q).value;
            Accounted(c, Assign(c, p, q, d)) <==> !(q == AC_MC && d >= c.Reserved())
  {
    var d := FindFree(c, p.busy, q).value;
    FindFreeIs(c, p.busy, q);
    if q == AC_MC && d >= c.Reserved() {
      var p' := Assign(c, p, q, d);
      assert Owned(c, p', AC_MC) == Owned(c, p, AC_MC);
      OwnedBound(c, p, AC_MC);
      assert p'.out[AC_MC] == p.out[AC_MC] + 1;
    } else {
      AssignAccounted(c, p, q, d);
    }
  }

  /** The queue that TX-done works out for a spare just handed out is its true queue exactly for queues 0 to 3. */
  lemma SpareOwnerIff(c: Config, p: Pool, q: nat, d: nat)
    requires Accounted(c, p) && q < AC_MAX && c.Reserved() <= d < c.numTokens && d !in p.busy
    ensures Owner(c, Assign(c, p, q, d), d) == q <==> q < AC_MC
  {
    if q < AC_MC {
      AssignAccounted(c, p, q, d);
    }
  }

  // Release ---------------------------------------------------------------

  lemma ReleaseBits(c: Config, p: Pool, d: nat, e: nat, r: nat)
    requires Accounted(c, p) && d in p.busy && e < c.numTokens && r < AC_MAX
    ensures var p' := Release(c, p, d, Owner(c, p, d));
            e != d ==> OwnedBy(c, p', e, r) == OwnedBy(c, p, e, r)
  {
    if c.Reserved() <= d && c.Reserved() <= e && e != d && r < AC_MC {
      SpareBitDistinct(c, d, Owner(c, p, d), e, r);
    }
  }

  lemma ReleaseOwned(c: Config, p: Pool, d: nat, r: nat)
    requires Accounted(c, p) && d in p.busy && r < AC_MAX
    ensures var q := Owner(c, p, d);
            Owned(c, Release(c, p, d, q), r) == Owned(c, p, r) - {d}
    ensures d in Owned(c, p, r) <==> r == Owner(c, p, d)
  {
    OwnerIsTrue(c, p, d);
    var p' := Release(c, p, d, Owner(c, p, d));
    forall e: nat | e < c.numTokens
      ensures e in Owned(c, p', r) <==> e in Owned(c, p, r) - {d}
    {
      ReleaseBits(c, p, d, e, r);
    }
  }

  lemma ReleaseNibble(c: Config, p: Pool, d: nat, e: nat)
    requires Accounted(c, p) && d in p.busy && c.Reserved() <= e < c.numTokens
    ensures NibbleFits(c, Release(c, p, d, Owner(c, p, d)), e)
  {
    var p' := Release(c, p, d, Owner(c, p, d));
    assert NibbleFits(c, p, e);
    if e == d {
      var q: nat :| 0 <= q < AC_MC && OneBit(c, p, d, q);
      OwnerOfOneBit(c, p, d, q);
    } else {
      forall r: nat | r < AC_MC
        ensures SpareBit(c, e, r) in p'.spare <==> SpareBit(c, e, r) in p.spare
      {
        ReleaseBits(c, p, d, e, r);
      }
      if e in p.busy {
        var r: nat :| 0 <= r < AC_MC && OneBit(c, p, e, r);
        assert OneBit(c, p', e, r);
      }
    }
  }

  lemma ReleaseAccounted(c: Config, p: Pool, d: nat)
    requires Accounted(c, p) && d in p.busy
    ensures Accounted(c, Release(c, p, d, Owner(c, p, d)))
  {
    var q := Owner(c, p, d);
    var p' := Release(c, p, d, q);
    forall r | 0 <= r < AC_MAX ensures p'.out[r] == |Owned(c, p', r)| {
      ReleaseOwned(c, p, d, r);
      OwnedBound(c, p, r);
      if r == q { assert d in Owned(c, p, r); assert |Owned(c, p, r)| > 0; }
      else { assert Owned(c, p', r) == Owned(c, p, r); }
    }
    forall e | c.Reserved() <= e < c.numTokens ensures NibbleFits(c, p', e) {
      ReleaseNibble(c, p, d, e);
    }
  }

  lemma ReleaseOwner(c: Config, p: Pool, d: nat, q: nat, e: nat)
    requires Shaped(c, p) && d < c.numTokens && e < c.numTokens && e != d && q < AC_MAX
    requires d >= c.Reserved() ==> q < AC_MC
    ensures Owner(c, Release(c, p, d, q), e) == Owner(c, p, e)
  {
    if d >= c.Reserved() && e >= c.Reserved() {
      SpareBitDistinct(c, d, q, e, AC_BK);
      SpareBitDistinct(c, d, q, e, AC_BE);
      SpareBitDistinct(c, d, q, e, AC_VI);
      SpareBitDistinct(c, d, q, e, AC_VO);
    }
  }

  // Reown -------------------------------------------------------------------

  /** Moving a spare is releasing it from one queue and assigning it to the other. */
  lemma ReownIsReassign(c: Config, p: Pool, d: nat, to: nat)
    requires Accounted(c, p) && c.Reserved() <= d && d in p.busy && to < AC_MC && to != Owner(c, p, d)
    ensures Reown(c, p, d, Owner(c, p, d), to) == Assign(c, Release(c, p, d, Owner(c, p, d)), to, d)
  {
    assert p.busy - {d} + {d} == p.busy;
  }

  lemma ReownAccounted(c: Config, p: Pool, d: nat, to: nat)
    requires Accounted(c, p) && d in p.busy
    requires d < c.Reserved() ==> to == Owner(c, p, d)
    requires d >= c.Reserved() ==> to < AC_MC
    ensures Accounted(c, Reown(c, p, d, Owner(c, p, d), to))
    ensures Owner(c, Reown(c, p, d, Owner(c, p, d), to), d) == to
  {
    if to != Owner(c, p, d) {
      ReownIsReassign(c, p, d, to);
      ReleaseAccounted(c, p, d);
      AssignAccounted(c, Release(c, p, d, Owner(c, p, d)), to, d);
    }
  }

  lemma ReownOwner(c: Config, p: Pool, d: nat, to: nat, e: nat)
    requires Accounted(c, p) && d in p.busy && e < c.numTokens && e != d
    requires d < c.Reserved() ==> to == Owner(c, p, d)
    requires d >= c.Reserved() ==> to < AC_MC
    ensures Owner(c, Reown(c, p, d, Owner(c, p, d), to), e) == Owner(c, p, e)
  {
    var q := Owner(c, p, d);
    if to != q {
      ReownIsReassign(c, p, d, to);
      ReleaseOwner(c, p, d, q, e);
      AssignOwner(c, Release(c, p, d, q), to, d, e);
    }
  }
}
