/** The in-memory store behind the request handlers: the three collections as
    fields that the handlers update in place. Every handler method is proved
    to leave exactly the database its transition in `Routes` describes; the
    five route methods also keep the store's invariant. */
module Store {
  import opened Models
  import opened Routes

  /** The collection scan behind `findById`. */
  method ScanById<T>(docs: seq<T>, idOf: T -> Id, id: Id) returns (r: Option<nat>)
    ensures r == FindById(docs, idOf, id)
  {
    var k := 0;
    while k < |docs|
      invariant 0 <= k <= |docs|
      invariant forall j :: 0 <= j < k ==> idOf(docs[j]) != id
    {
      if idOf(docs[k]) == id {
        return Some(k);
      }
      k := k + 1;
    }
    return None;
  }

  class MarketStore {
    var users: seq<User>
    var gigs: seq<Gig>
    var bids: seq<Bid>
    var nextId: Id

    /** The database the fields hold. */
    function State(): Db
      reads this
    {
      Db(users, gigs, bids, nextId)
    }

    predicate Valid()
      reads this
    {
      Invariant(State())
    }

    constructor ()
      ensures Valid() && State() == Db([], [], [], 0)
    {
      users, gigs, bids, nextId := [], [], [], 0;
    }

    /** GET /api/gigs: `Gig.find({ status: 'Open' })`. */
    function ListOpenGigs(): (r: seq<Gig>)
      reads this
      ensures forall g :: g in r <==> g in gigs && g.status == Open
    {
      OpenGigs(gigs)
    }

    /** GET /api/bids/:gigId: `Bid.find({ gigId })`. */
    function ListBids(gigId: Id): (r: seq<Bid>)
      reads this
      ensures forall b :: b in r <==> b in bids && b.gigId == gigId
    {
      BidsForGig(bids, gigId)
    }

    /** The unique index on `email`: is the email already registered? */
    method EmailInUse(email: string) returns (taken: bool)
      ensures taken == EmailTaken(users, email)
    {
      var k := 0;
      while k < |users|
        invariant 0 <= k <= |users|
        invariant forall j :: 0 <= j < k ==> users[j].email != email
      {
        if users[k].email == email {
          return true;
        }
        k := k + 1;
      }
      return false;
    }

    /** POST /api/auth/register: a duplicate email fails and adds nothing. */
    method Register(name: string, email: string, password: PasswordHash) returns (r: RegisterResult)
      requires Valid()
      modifies this
      ensures Valid()
      ensures (State(), r) == RegisterOn(old(State()), name, email, password)
    {
      var taken := EmailInUse(email);
      if taken {
        return Duplicate;
      }
      var u := User(nextId, name, email, password);
      RegisterKeepsInvariant(State(), name, email, password);
      users, nextId := users + [u], nextId + 1;
      r := Registered(u);
    }

    /** POST /api/gigs, for an authenticated caller. */
    method PostGig(caller: Id, title: string, description: string, budget: int) returns (g: Gig)
      requires Valid()
      modifies this
      ensures Valid()
      ensures (State(), g) == PostGigOn(old(State()), caller, title, description, budget)
    {
      PostGigKeepsInvariant(State(), caller, title, description, budget);
      g := Gig(nextId, title, description, budget, caller, Open);
      gigs, nextId := gigs + [g], nextId + 1;
    }

    /** POST /api/bids, for an authenticated caller with this id and name. */
    method PlaceBid(caller: Id, callerName: string, gigId: Id, message: string) returns (b: Bid)
      requires Valid()
      modifies this
      ensures Valid()
      ensures (State(), b) == PlaceBidOn(old(State()), caller, callerName, gigId, message)
    {
      PlaceBidKeepsInvariant(State(), caller, callerName, gigId, message);
      b := Bid(nextId, gigId, caller, callerName, message, Pending);
      bids, nextId := bids + [b], nextId + 1;
    }

    /** `Gig.findByIdAndUpdate(gigId, { status: 'Assigned' })`. */
    method MarkGigAssigned(gigId: Id)
      modifies this
      ensures gigs == AssignGig(old(gigs), gigId)
      ensures users == old(users) && bids == old(bids) && nextId == old(nextId)
    {
      ghost var before := gigs;
      var k := 0;
      while k < |gigs|
        invariant 0 <= k <= |gigs| == |before|
        invariant forall j :: 0 <= j < k ==> gigs[j] == AssignGig(before, gigId)[j]
        invariant forall j :: k <= j < |gigs| ==> gigs[j] == before[j]
        invariant users == old(users) && bids == old(bids) && nextId == old(nextId)
      {
        if gigs[k].id == gigId {
          gigs := gigs[k := gigs[k].(status := Assigned)];
        }
        k := k + 1;
      }
    }

    /** `Bid.updateMany({ gigId, _id: { $ne: keep } }, { status: 'Rejected' })`. */
    method RejectOtherBids(gigId: Id, keep: Id)
      modifies this
      ensures bids == RejectOthers(old(bids), gigId, keep)
      ensures users == old(users) && gigs == old(gigs) && nextId == old(nextId)
    {
      ghost var before := bids;
      var k := 0;
      while k < |bids|
        invariant 0 <= k <= |bids| == |before|
        invariant forall j :: 0 <= j < k ==> bids[j] == RejectOthers(before, gigId, keep)[j]
        invariant forall j :: k <= j < |bids| ==> bids[j] == before[j]
        invariant users == old(users) && gigs == old(gigs) && nextId == old(nextId)
      {
        if bids[k].gigId == gigId && bids[k].id != keep {
          bids := bids[k := bids[k].(status := Rejected)];
        }
        k := k + 1;
      }
    }

    /** The three writes of a hire, in the handler's order: save the bid at
        position `i` as Hired, assign its gig, reject every other bid on that gig. */
    method CommitHire(bidId: Id, i: nat)
      requires FindBid(bids, bidId) == Some(i)
      modifies this
      ensures State() == HireOn(old(State()), bidId).0
    {
      bids := bids[i := bids[i].(status := Hired)];
      var gigId := bids[i].gigId;
      MarkGigAssigned(gigId);
      RejectOtherBids(gigId, bidId);
    }

    /** PUT /api/bids/hire/:bidId as written: NotFound for a missing bid,
        otherwise the transition of `HireOn`, with no further check. */
    method Hire(bidId: Id) returns (r: HireOutcome)
      requires Valid()
      modifies this
      ensures Valid()
      ensures (State(), r) == HireOn(old(State()), bidId)
    {
      var found := ScanById(bids, BidId, bidId);
      if found.None? {
        return NotFound;
      }
      HireKeepsInvariant(State(), bidId);
      CommitHire(bidId, found.value);
      r := Success;
    }

    /** The guarded hire: the checks of `HireCheckedOn`, in order, before the
        same three writes. */
    method HireChecked(caller: Id, bidId: Id) returns (r: HireOutcome)
      requires Valid()
      modifies this
      ensures Valid()
      ensures (State(), r) == HireCheckedOn(old(State()), caller, bidId)
    {
      var found := ScanById(bids, BidId, bidId);
      if found.None? {
        return NotFound;
      }
      var b := bids[found.value];
      var gigAt := ScanById(gigs, GigId, b.gigId);
      if gigAt.None? {
        return InconsistentState;
      }
      var g := gigs[gigAt.value];
      if g.ownerId != caller {
        return Forbidden;
      }
      if g.status != Open || b.status != Pending {
        return Conflict;
      }
      HireKeepsInvariant(State(), bidId);
      CommitHire(bidId, found.value);
      r := Success;
    }
  }
}
