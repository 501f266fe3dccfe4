/** The request handlers of the marketplace backend, each as a transition of
    the database: register, post a gig, list open gigs, place a bid, list the
    bids of a gig, and hire. The caller of an authenticated route arrives as an
    already-verified id and name. `HireOn` is the hire handler as the code has
    it; `HireCheckedOn` adds the owner, Open and Pending checks of the
    system's design in front of it, and is kept apart. */
module Routes {
  import opened Models

  datatype RegisterResult = Registered(user: User) | Duplicate

  datatype HireOutcome = Success | NotFound | Forbidden | Conflict | InconsistentState

  /** `User.create`: fails on an email already present (the unique index),
      otherwise appends a user with a fresh id. */
  function RegisterOn(db: Db, name: string, email: string, password: PasswordHash)
    : (res: (Db, RegisterResult))
    ensures res.1 == Duplicate <==> EmailTaken(db.users, email)
    ensures res.1 == Duplicate ==> res.0 == db
    ensures res.1.Registered? ==>
      && res.1.user.name == name && res.1.user.email == email && res.1.user.password == password
      && res.1.user.id == db.nextId < res.0.nextId
      && res.0 == db.(users := db.users + [res.1.user], nextId := res.0.nextId)
  {
    if EmailTaken(db.users, email) then (db, Duplicate)
    else
      var u := User(db.nextId, name, email, password);
      (db.(users := db.users + [u], nextId := db.nextId + 1), Registered(u))
  }

  /** `Gig.create({ ...body, ownerId })`: appends an `Open` gig owned by the caller. */
  function PostGigOn(db: Db, caller: Id, title: string, description: string, budget: int)
    : (res: (Db, Gig))
    ensures res.1.status == Open && res.1.ownerId == caller
    ensures res.1.title == title && res.1.description == description && res.1.budget == budget
    ensures res.1.id == db.nextId < res.0.nextId
    ensures res.0 == db.(gigs := db.gigs + [res.1], nextId := res.0.nextId)
  {
    var g := Gig(db.nextId, title, description, budget, caller, Open);
    (db.(gigs := db.gigs + [g], nextId := db.nextId + 1), g)
  }

  /** `Bid.create({ ...body, freelancerId, email: name })`: appends a `Pending`
      bid stamped with the caller's id and name. The gig is not looked up. */
  function PlaceBidOn(db: Db, caller: Id, callerName: string, gigId: Id, message: string)
    : (res: (Db, Bid))
    ensures res.1.status == Pending && res.1.freelancerId == caller && res.1.email == callerName
    ensures res.1.gigId == gigId && res.1.message == message
    ensures res.1.id == db.nextId < res.0.nextId
    ensures res.0 == db.(bids := db.bids + [res.1], nextId := res.0.nextId)
  {
    var b := Bid(db.nextId, gigId, caller, callerName, message, Pending);
    (db.(bids := db.bids + [b], nextId := db.nextId + 1), b)
  }

  /** `Gig.findByIdAndUpdate(gigId, { status: 'Assigned' })`. */
  function AssignGig(gigs: seq<Gig>, gigId: Id): (r: seq<Gig>)
    ensures |r| == |gigs|
    ensures forall k :: 0 <= k < |r| ==> r[k] == gigs[k].(status := r[k].status)
    ensures forall k :: 0 <= k < |r| && gigs[k].id == gigId ==> r[k].status == Assigned
    ensures forall k :: 0 <= k < |r| && gigs[k].id != gigId ==> r[k] == gigs[k]
  {
    seq(|gigs|, k requires 0 <= k < |gigs| =>
      if gigs[k].id == gigId then gigs[k].(status := Assigned) else gigs[k])
  }

  /** `Bid.updateMany({ gigId, _id: { $ne: keep } }, { status: 'Rejected' })`. */
  function RejectOthers(bids: seq<Bid>, gigId: Id, keep: Id): (r: seq<Bid>)
    ensures |r| == |bids|
    ensures forall k :: 0 <= k < |r| ==> r[k] == bids[k].(status := r[k].status)
    ensures forall k :: 0 <= k < |r| && bids[k].gigId == gigId && bids[k].id != keep ==> r[k].status == Rejected
    ensures forall k :: 0 <= k < |r| && (bids[k].gigId != gigId || bids[k].id == keep) ==> r[k] == bids[k]
  {
    seq(|bids|, k requires 0 <= k < |bids| =>
      if bids[k].gigId == gigId && bids[k].id != keep then bids[k].(status := Rejected) else bids[k])
  }

  /** The hire handler as written: find the bid; if absent, NotFound and no
      change. Otherwise mark it Hired, mark its gig Assigned and reject every
      other bid on that gig, whatever their status. There is no check of the
      caller, of the gig's status or of the bid's status. */
  function HireOn(db: Db, bidId: Id): (res: (Db, HireOutcome))
    ensures res.1 == Success || res.1 == NotFound
    ensures res.1 == NotFound <==> forall k :: 0 <= k < |db.bids| ==> db.bids[k].id != bidId
    ensures res.1 == NotFound ==> res.0 == db
    ensures res.1 == Success ==>
      var i := FindBid(db.bids, bidId).value;
      var gigId := db.bids[i].gigId;
      && res.0.users == db.users && res.0.nextId == db.nextId
      && |res.0.gigs| == |db.gigs| && |res.0.bids| == |db.bids|
      // the hired bid: only its status changes
      && res.0.bids[i] == db.bids[i].(status := Hired)
      // its gig is Assigned, every other gig is untouched
      && (forall k :: 0 <= k < |db.gigs| && db.gigs[k].id == gigId ==>
            res.0.gigs[k] == db.gigs[k].(status := Assigned))
      && (forall k :: 0 <= k < |db.gigs| && db.gigs[k].id != gigId ==> res.0.gigs[k] == db.gigs[k])
      // every other bid on that gig is Rejected, bids on other gigs are untouched
      && (forall k :: 0 <= k < |db.bids| && k != i && db.bids[k].gigId == gigId && db.bids[k].id != bidId ==>
            res.0.bids[k] == db.bids[k].(status := Rejected))
      && (forall k :: 0 <= k < |db.bids| && db.bids[k].gigId != gigId ==> res.0.bids[k] == db.bids[k])
  {
    match FindBid(db.bids, bidId)
    case None => (db, NotFound)
    case Some(i) =>
      var gigId := db.bids[i].gigId;
      var hired := db.bids[i := db.bids[i].(status := Hired)];
      (db.(gigs := AssignGig(db.gigs, gigId), bids := RejectOthers(hired, gigId, bidId)), Success)
  }

  /** A guarded hire: the checks of the system's design run first (the bid
      exists, its gig exists, the caller owns the gig, the gig is Open, the
      bid is Pending), then the hire as written. Its transition is that of
      `HireOn`, which rejects every sibling bid, not only the Pending ones. */
  function HireCheckedOn(db: Db, caller: Id, bidId: Id): (res: (Db, HireOutcome))
    ensures res.1 != Success ==> res.0 == db
    ensures res.1 == NotFound <==> FindBid(db.bids, bidId).None?
    ensures res.1 == Success <==>
      && FindBid(db.bids, bidId).Some?
      && var b := db.bids[FindBid(db.bids, bidId).value];
      && FindGig(db.gigs, b.gigId).Some?
      && var g := db.gigs[FindGig(db.gigs, b.gigId).value];
      && g.ownerId == caller && g.status == Open && b.status == Pending
    ensures res.1 == InconsistentState <==>
      && FindBid(db.bids, bidId).Some?
      && FindGig(db.gigs, db.bids[FindBid(db.bids, bidId).value].gigId).None?
    ensures res.1 == Forbidden <==>
      && FindBid(db.bids, bidId).Some?
      && var b := db.bids[FindBid(db.bids, bidId).value];
      && FindGig(db.gigs, b.gigId).Some?
      && db.gigs[FindGig(db.gigs, b.gigId).value].ownerId != caller
    ensures res.1 == Conflict <==>
      && FindBid(db.bids, bidId).Some?
      && var b := db.bids[FindBid(db.bids, bidId).value];
      && FindGig(db.gigs, b.gigId).Some?
      && var g := db.gigs[FindGig(db.gigs, b.gigId).value];
      && g.ownerId == caller && (g.status != Open || b.status != Pending)
    ensures res.1 == Success ==> res.0 == HireOn(db, bidId).0
  {
    match FindBid(db.bids, bidId)
    case None => (db, NotFound)
    case Some(i) =>
      var b := db.bids[i];
      match FindGig(db.gigs, b.gigId)
      case None => (db, InconsistentState)
      case Some(j) =>
        if db.gigs[j].ownerId != caller then (db, Forbidden)
        else if db.gigs[j].status != Open then (db, Conflict)
        else if b.status != Pending then (db, Conflict)
        else HireOn(db, bidId)
  }

  // ---------------------------------------------------------------------------
  // Hire: what one successful call leaves behind

  /** After a successful hire exactly one bid on the gig is Hired, and it is
      the bid that was hired. */
  lemma SingleHire(db: Db, bidId: Id)
    requires WellFormed(db)
    requires FindBid(db.bids, bidId).Some?
    ensures var after := HireOn(db, bidId).0;
            var gigId := db.bids[FindBid(db.bids, bidId).value].gigId;
            && CountHired(after.bids, gigId) == 1
            && forall k :: 0 <= k < |after.bids| && after.bids[k].gigId == gigId ==>
                 (after.bids[k].status == Hired <==> after.bids[k].id == bidId)
  {
    var i := FindBid(db.bids, bidId).value;
    var gigId := db.bids[i].gigId;
    var after := HireOn(db, bidId).0;
    forall k | 0 <= k < |after.bids| && k != i
      ensures !(after.bids[k].gigId == gigId && after.bids[k].status == Hired)
      ensures after.bids[k].id != bidId
    {
      assert db.bids[k].id != db.bids[i].id;
    }
    CountHiredSingle(after.bids, gigId, i);
  }

  /** Hiring the same bid twice leaves the database as hiring it once. */
  lemma HireIdempotent(db: Db, bidId: Id)
    ensures HireOn(HireOn(db, bidId).0, bidId) == HireOn(db, bidId)
  {
    match FindBid(db.bids, bidId)
    case None =>
    case Some(i) =>
      var once := HireOn(db, bidId).0;
      HireKeepsShape(db, bidId);
      FindByIdSameIds(db.bids, once.bids, BidId, bidId);
      var gigId := db.bids[i].gigId;
      assert once.bids[i].gigId == gigId;
      assert once.bids[i := once.bids[i].(status := Hired)] == once.bids;
      assert AssignGig(once.gigs, gigId) == once.gigs;
      assert RejectOthers(once.bids, gigId, bidId) == once.bids;
  }

  /** As written, hiring a second bid on an already Assigned gig succeeds:
      the new bid becomes the hired one and the earlier hire is Rejected. */
  lemma HireReplacesEarlierHire(db: Db, first: Id, second: Id)
    requires WellFormed(db)
    requires FindBid(db.bids, first).Some? && FindBid(db.bids, second).Some? && first != second
    requires db.bids[FindBid(db.bids, first).value].gigId == db.bids[FindBid(db.bids, second).value].gigId
    ensures var once := HireOn(db, first).0;
            var twice := HireOn(once, second);
            && twice.1 == Success
            && twice.0.bids[FindBid(db.bids, first).value].status == Rejected
            && twice.0.bids[FindBid(db.bids, second).value].status == Hired
  {
    var i := FindBid(db.bids, first).value;
    var j := FindBid(db.bids, second).value;
    var once := HireOn(db, first).0;
    HireKeepsShape(db, first);
    FindByIdSameIds(db.bids, once.bids, BidId, second);
    assert once.bids[j].id == second && once.bids[i].id == first;
    assert db.bids[i].id != db.bids[j].id;
  }

  /** The hire closes exactly its own gig in the list of open gigs. */
  lemma HireClosesGig(db: Db, bidId: Id)
    requires FindBid(db.bids, bidId).Some?
    ensures var after := HireOn(db, bidId).0;
            var gigId := db.bids[FindBid(db.bids, bidId).value].gigId;
            forall g :: g in OpenGigs(after.gigs) <==> g in OpenGigs(db.gigs) && g.id != gigId
  {
    var after := HireOn(db, bidId).0;
    var gigId := db.bids[FindBid(db.bids, bidId).value].gigId;
    forall g ensures g in after.gigs && g.status == Open <==> g in db.gigs && g.status == Open && g.id != gigId {
      if g in after.gigs && g.status == Open {
        var k :| 0 <= k < |after.gigs| && after.gigs[k] == g;
        assert db.gigs[k] == g;
      }
      if g in db.gigs && g.status == Open && g.id != gigId {
        var k :| 0 <= k < |db.gigs| && db.gigs[k] == g;
        assert after.gigs[k] == g;
      }
    }
  }

  // ---------------------------------------------------------------------------
  // Creation routes and the listings

  /** A posted gig shows at the end of the list of open gigs. */
  lemma PostGigListsOpen(db: Db, caller: Id, title: string, description: string, budget: int)
    ensures var (after, g) := PostGigOn(db, caller, title, description, budget);
            OpenGigs(after.gigs) == OpenGigs(db.gigs) + [g]
  {
    var (after, g) := PostGigOn(db, caller, title, description, budget);
    OpenGigsAppend(db.gigs, [g]);
    assert [g][1..] == [];
  }

  /** A placed bid shows at the end of its gig's bids and nowhere else. */
  lemma PlaceBidListsBid(db: Db, caller: Id, callerName: string, gigId: Id, message: string, other: Id)
    ensures var (after, b) := PlaceBidOn(db, caller, callerName, gigId, message);
            && BidsForGig(after.bids, gigId) == BidsForGig(db.bids, gigId) + [b]
            && (other != gigId ==> BidsForGig(after.bids, other) == BidsForGig(db.bids, other))
  {
    var (after, b) := PlaceBidOn(db, caller, callerName, gigId, message);
    BidsForGigAppend(db.bids, [b], gigId);
    BidsForGigAppend(db.bids, [b], other);
    assert [b][1..] == [];
  }

  // ---------------------------------------------------------------------------
  // Every route keeps the invariant

  lemma RegisterKeepsInvariant(db: Db, name: string, email: string, password: PasswordHash)
    requires Invariant(db)
    ensures Invariant(RegisterOn(db, name, email, password).0)
  {
  }

  lemma PostGigKeepsInvariant(db: Db, caller: Id, title: string, description: string, budget: int)
    requires Invariant(db)
    ensures Invariant(PostGigOn(db, caller, title, description, budget).0)
  {
  }

  lemma PlaceBidKeepsInvariant(db: Db, caller: Id, callerName: string, gigId: Id, message: string)
    requires Invariant(db)
    ensures Invariant(PlaceBidOn(db, caller, callerName, gigId, message).0)
  {
  }

  /** Even without any guard, the as-written hire never leaves two hired bids
      on one gig: it rejects every sibling, including an earlier hire. */
  lemma HireKeepsInvariant(db: Db, bidId: Id)
    requires Invariant(db)
    ensures Invariant(HireOn(db, bidId).0)
  {
    if FindBid(db.bids, bidId).Some? {
      var i := FindBid(db.bids, bidId).value;
      var gigId := db.bids[i].gigId;
      var after := HireOn(db, bidId).0;
      SingleHire(db, bidId);
      HireKeepsShape(db, bidId);
      forall j, k | 0 <= j < |after.bids| && 0 <= k < |after.bids|
          && after.bids[j].status == Hired && after.bids[k].status == Hired
          && after.bids[j].gigId == after.bids[k].gigId
        ensures j == k
      {
        if after.bids[j].gigId == gigId {
          assert after.bids[j].id == bidId == after.bids[k].id;
        } else {
          assert after.bids[j] == db.bids[j] && after.bids[k] == db.bids[k];
        }
      }
    }
  }

  // ---------------------------------------------------------------------------
  // The guarded hire

  /** Replaying a successful guarded hire is a Conflict and changes nothing. */
  lemma HireCheckedReplayConflicts(db: Db, caller: Id, bidId: Id)
    requires HireCheckedOn(db, caller, bidId).1 == Success
    ensures var after := HireCheckedOn(db, caller, bidId).0;
            HireCheckedOn(after, caller, bidId) == (after, Conflict)
  {
    HireCheckedSecondConflicts(db, caller, bidId, bidId);
  }

  /** Of two guarded hires on the same gig by its owner, the second one is a
      Conflict: the gig is no longer Open. */
  lemma HireCheckedSecondConflicts(db: Db, caller: Id, first: Id, second: Id)
    requires HireCheckedOn(db, caller, first).1 == Success
    requires FindBid(db.bids, second).Some?
    requires db.bids[FindBid(db.bids, second).value].gigId == db.bids[FindBid(db.bids, first).value].gigId
    ensures var after := HireCheckedOn(db, caller, first).0;
            HireCheckedOn(after, caller, second) == (after, Conflict)
  {
    var i := FindBid(db.bids, first).value;
    var i2 := FindBid(db.bids, second).value;
    var gigId := db.bids[i].gigId;
    var j := FindGig(db.gigs, gigId).value;
    var after := HireOn(db, first).0;
    HireKeepsShape(db, first);
    FindByIdSameIds(db.bids, after.bids, BidId, second);
    FindByIdSameIds(db.gigs, after.gigs, GigId, gigId);
    assert after.bids[i2].gigId == gigId;
    assert after.gigs[j].status == Assigned;
  }

  /** After a guarded hire, anyone but the gig's owner who tries to hire a
      bid on that gig is Forbidden, and nothing changes. */
  lemma HireCheckedOtherForbidden(db: Db, caller: Id, other: Id, first: Id, second: Id)
    requires HireCheckedOn(db, caller, first).1 == Success
    requires other != caller
    requires FindBid(db.bids, second).Some?
    requires db.bids[FindBid(db.bids, second).value].gigId == db.bids[FindBid(db.bids, first).value].gigId
    ensures var after := HireCheckedOn(db, caller, first).0;
            HireCheckedOn(after, other, second) == (after, Forbidden)
  {
    var i := FindBid(db.bids, first).value;
    var i2 := FindBid(db.bids, second).value;
    var gigId := db.bids[i].gigId;
    var j := FindGig(db.gigs, gigId).value;
    var after := HireOn(db, first).0;
    HireKeepsShape(db, first);
    FindByIdSameIds(db.bids, after.bids, BidId, second);
    FindByIdSameIds(db.gigs, after.gigs, GigId, gigId);
    assert after.bids[i2].gigId == gigId;
    assert after.gigs[j].ownerId == caller;
  }

  /** An owner posts a gig on an empty database and two freelancers bid on
      it: the gig is Open and both bids Pending. */
  lemma ScenarioSetup(owner: Id, f1: Id, f2: Id)
    ensures var (db1, gig) := PostGigOn(Db([], [], [], 0), owner, "Logo", "Design a logo", 500);
            var (db2, b1) := PlaceBidOn(db1, f1, "F1", gig.id, "I can do it");
            var (db3, b2) := PlaceBidOn(db2, f2, "F2", gig.id, "Me too");
            db3 == ScenarioDb(owner, f1, f2)
  {
  }

  function ScenarioDb(owner: Id, f1: Id, f2: Id): Db {
    Db([], [Gig(0, "Logo", "Design a logo", 500, owner, Open)],
        [Bid(1, 0, f1, "F1", "I can do it", Pending), Bid(2, 0, f2, "F2", "Me too", Pending)], 3)
  }

  /** On that database the owner hires the first bid: the gig is Assigned,
      the first bid Hired, the second Rejected. A guarded hire of the second
      bid is then a Conflict; the hire as written instead moves the hire to it. */
  lemma ScenarioHire(owner: Id, f1: Id, f2: Id)
    ensures var db := ScenarioDb(owner, f1, f2);
            var (after, r) := HireCheckedOn(db, owner, 1);
            && r == Success
            && after.gigs == [db.gigs[0].(status := Assigned)]
            && after.bids == [db.bids[0].(status := Hired), db.bids[1].(status := Rejected)]
            && HireCheckedOn(after, owner, 2) == (after, Conflict)
            && HireOn(after, 2).0.bids == [db.bids[0].(status := Rejected), db.bids[1].(status := Hired)]
  {
    var db := ScenarioDb(owner, f1, f2);
    assert FindBid(db.bids, 1) == Some(0);
    assert FindGig(db.gigs, 0) == Some(0);
    var after := HireOn(db, 1).0;
    assert after.gigs == [db.gigs[0].(status := Assigned)];
    assert after.bids == [db.bids[0].(status := Hired), db.bids[1].(status := Rejected)];
    assert FindBid(after.bids, 2) == Some(1);
    assert FindGig(after.gigs, 0) == Some(0);
    var again := HireOn(after, 2).0;
    assert again.bids == [db.bids[0].(status := Rejected), db.bids[1].(status := Hired)];
  }

  // ---------------------------------------------------------------------------
  // A hire changes statuses only

  /** A hire changes statuses only: every other field of every gig and bid,
      the lengths, the users and the id counter are kept. */
  lemma HireKeepsShape(db: Db, bidId: Id)
    ensures var after := HireOn(db, bidId).0;
            && after.users == db.users && after.nextId == db.nextId
            && |after.gigs| == |db.gigs| && |after.bids| == |db.bids|
            && (forall k :: 0 <= k < |db.gigs| ==> after.gigs[k] == db.gigs[k].(status := after.gigs[k].status))
            && (forall k :: 0 <= k < |db.bids| ==> after.bids[k] == db.bids[k].(status := after.bids[k].status))
            && (forall k :: 0 <= k < |db.gigs| ==> GigId(after.gigs[k]) == GigId(db.gigs[k]))
            && (forall k :: 0 <= k < |db.bids| ==> BidId(after.bids[k]) == BidId(db.bids[k]))
  {
  }
}
