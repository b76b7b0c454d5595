/** The coupling of bed, referral and reservation rows, and the counts that follow from
    it: what the concurrency test measures on one run, for every valid database. */
module Coupling {
  import opened Domain
  import opened Store

  /** Bed statuses and reservations stay coupled as long as no event says `reserved`. */
  lemma AtomicKeepsCoupled(db: Database, db': Database, c: Change)
    requires Valid(db) && Coupled(db) && Atomic(db, db', c)
    requires c.Application? ==> c.e.status != BedStatus.Reserved
    ensures Valid(db') && Coupled(db')
  {
    AtomicKeepsValid(db, db', c);
    match c
    case Nothing =>
    case Application(e) => ApplyCoupling(db, e);
    case Insertion(_, _) =>
      forall b | b in db'.beds && db'.beds[b].status == BedStatus.Reserved
        ensures exists i :: ActiveOn(db', i, b)
      {
        var i :| ActiveOn(db, i, b);
        assert ActiveOn(db', i, b);
      }
    case Allocation(won, _) =>
      forall b | b in db'.beds && db'.beds[b].status == BedStatus.Reserved
        ensures exists i :: ActiveOn(db', i, b)
      {
        if b == won {
          assert ActiveOn(db', |db.reservations|, b);
        } else {
          var i :| ActiveOn(db, i, b);
          assert ActiveOn(db', i, b);
        }
      }
  }

  /** Exactly when an event keeps the coupling: the gate's refusal of `reserved` is what the
      invariant needs, save for a bed that is reserved already. */
  lemma ApplyCoupling(db: Database, e: Event)
    requires Valid(db) && Coupled(db) && e.bed in db.beds
    ensures ReservationsFit(Apply(db, e))
    ensures Coupled(Apply(db, e))
       <==> e.status != BedStatus.Reserved || db.beds[e.bed].status == BedStatus.Reserved
  {
    ApplyKeepsValid(db, e);
    var db' := Apply(db, e);
    if e.status == BedStatus.Reserved && db.beds[e.bed].status != BedStatus.Reserved {
      assert forall i :: ActiveOn(db', i, e.bed) ==> ActiveOn(db, i, e.bed);
      assert db'.beds[e.bed].status == BedStatus.Reserved;
    } else {
      forall b | b in db'.beds && db'.beds[b].status == BedStatus.Reserved
        ensures exists i :: ActiveOn(db', i, b)
      {
        var i :| ActiveOn(db, i, b);
        assert ActiveOn(db', i, b);
      }
    }
  }

  // ----- counting -----

  function ReservedBeds(db: Database): set<BedId> {
    set b | b in db.beds && db.beds[b].status == BedStatus.Reserved
  }

  function MatchedReferrals(db: Database): set<ReferralId> {
    set r | r in db.referrals && db.referrals[r].status == Matched
  }

  function ActiveRows(db: Database): set<int> {
    set i | 0 <= i < |db.reservations| && db.reservations[i].status == Active
  }

  function LiveRows(db: Database): set<int> {
    set i | 0 <= i < |db.reservations| && Live(db.reservations[i].status)
  }

  function HeldBeds(db: Database): set<BedId> {
    set i | i in LiveRows(db) :: db.reservations[i].bed
  }

  ghost predicate Injective<A, B>(f: map<A, B>) {
    forall x, y :: x in f && y in f && f[x] == f[y] ==> x == y
  }

  lemma {:induction false} InjectionPreservesSize<A, B>(f: map<A, B>)
    requires Injective(f)
    ensures |f.Keys| == |f.Values|
  {
    if f.Keys == {} {
      assert f.Values == {};
    } else {
      var x :| x in f.Keys;
      var g := f - {x};
      assert g.Values == f.Values - {f[x]} by {
        forall v | v in f.Values - {f[x]} ensures v in g.Values {
          var y :| y in f && f[y] == v;
          assert y in g && g[y] == v;
        }
      }
      assert f[x] in f.Values;
      assert g.Keys == f.Keys - {x};
      InjectionPreservesSize(g);
    }
  }

  lemma HeldCount(db: Database)
    requires Valid(db)
    ensures |LiveRows(db)| == |HeldBeds(db)|
  {
    var g := map i | i in LiveRows(db) :: db.reservations[i].bed;
    assert g.Keys == LiveRows(db);
    forall b | b in HeldBeds(db) ensures b in g.Values {
      var i :| i in LiveRows(db) && db.reservations[i].bed == b;
      assert i in g && g[i] == b;
    }
    assert g.Values == HeldBeds(db);
    InjectionPreservesSize(g);
  }

  /** As many matched referrals as live reservations, each on a bed of its own. */
  lemma MatchedCount(db: Database)
    requires Valid(db)
    ensures |MatchedReferrals(db)| == |LiveRows(db)| == |HeldBeds(db)|
  {
    HeldCount(db);
    var f := map i | i in LiveRows(db) :: db.reservations[i].referral;
    assert f.Values == MatchedReferrals(db) by {
      forall r | r in MatchedReferrals(db) ensures r in f.Values {
        var i :| LiveFor(db, i, r);
        assert i in f && f[i] == r;
      }
    }
    assert f.Keys == LiveRows(db);
    InjectionPreservesSize(f);
  }

  /** As many reserved beds as active reservations. */
  lemma ReservedCount(db: Database)
    requires Valid(db) && Coupled(db)
    ensures |ReservedBeds(db)| == |ActiveRows(db)|
  {
    var f := map i | i in ActiveRows(db) :: db.reservations[i].bed;
    assert f.Values == ReservedBeds(db) by {
      forall b | b in ReservedBeds(db) ensures b in f.Values {
        var i :| ActiveOn(db, i, b);
        assert i in f && f[i] == b;
      }
    }
    assert f.Keys == ActiveRows(db);
    InjectionPreservesSize(f);
  }
}
