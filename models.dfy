/** The documents of the marketplace backend: the User, Gig and Bid schemas,
    the in-memory database that holds them, the database's invariant and the
    queries the request handlers run against it. */
module Models {

  /** A document id. Mongo's ObjectIds are unique across all collections;
      here they are drawn from one counter shared by the three collections. */
  type Id = nat

  /** A bcrypt digest. Nothing in the store looks inside it. */
  type PasswordHash = string

  datatype Option<T> = None | Some(value: T)

  datatype User = User(id: Id, name: string, email: string, password: PasswordHash)

  datatype GigStatus = Open | Assigned

  /** A gig is created `Open`, the schema default. */
  datatype Gig = Gig(id: Id, title: string, description: string, budget: int,
                     ownerId: Id, status: GigStatus)

  datatype BidStatus = Pending | Hired | Rejected

  /** A bid is created `Pending`, the schema default. Its `email` field holds
      the display label of the freelancer, stamped when the bid is placed. */
  datatype Bid = Bid(id: Id, gigId: Id, freelancerId: Id, email: string,
                     message: string, status: BidStatus)

  /** The three collections, each in insertion order, and the next fresh id. */
  datatype Db = Db(users: seq<User>, gigs: seq<Gig>, bids: seq<Bid>, nextId: Id)

  /** Ids are unique in each collection and all below `nextId`; emails are
      unique among users (the schema's unique index). */
  predicate WellFormed(db: Db) {
    && (forall k :: 0 <= k < |db.users| ==> db.users[k].id < db.nextId)
    && (forall k :: 0 <= k < |db.gigs| ==> db.gigs[k].id < db.nextId)
    && (forall k :: 0 <= k < |db.bids| ==> db.bids[k].id < db.nextId)
    && (forall j, k :: 0 <= j < k < |db.users| ==> db.users[j].id != db.users[k].id)
    && (forall j, k :: 0 <= j < k < |db.users| ==> db.users[j].email != db.users[k].email)
    && (forall j, k :: 0 <= j < k < |db.gigs| ==> db.gigs[j].id != db.gigs[k].id)
    && (forall j, k :: 0 <= j < k < |db.bids| ==> db.bids[j].id != db.bids[k].id)
  }

  /** No gig has two hired bids. */
  predicate AtMostOneHiredPerGig(bids: seq<Bid>) {
    forall j, k ::
      && 0 <= j < |bids| && 0 <= k < |bids|
      && bids[j].status == Hired && bids[k].status == Hired
      && bids[j].gigId == bids[k].gigId
      ==> j == k
  }

  /** What every operation of the store keeps. */
  predicate Invariant(db: Db) {
    WellFormed(db) && AtMostOneHiredPerGig(db.bids)
  }

  predicate EmailTaken(users: seq<User>, email: string) {
    exists k :: 0 <= k < |users| && users[k].email == email
  }

  function BidId(b: Bid): Id { b.id }

  function GigId(g: Gig): Id { g.id }

  /** `Model.findById`: the position of the first document whose id, as
      `idOf` reads it, is `id`. */
  function FindById<T>(docs: seq<T>, idOf: T -> Id, id: Id): (r: Option<nat>)
    ensures r.Some? ==> r.value < |docs| && idOf(docs[r.value]) == id
    ensures r.Some? ==> forall k :: 0 <= k < r.value ==> idOf(docs[k]) != id
    ensures r.None? <==> forall k :: 0 <= k < |docs| ==> idOf(docs[k]) != id
  {
    if docs == [] then None
    else if idOf(docs[0]) == id then Some(0)
    else match FindById(docs[1..], idOf, id)
      case None => None
      case Some(j) => Some(j + 1)
  }

  /** `Bid.findById`. */
  function FindBid(bids: seq<Bid>, id: Id): Option<nat> {
    FindById(bids, BidId, id)
  }

  /** `Gig.findById`. */
  function FindGig(gigs: seq<Gig>, id: Id): Option<nat> {
    FindById(gigs, GigId, id)
  }

  /** Two collections whose documents carry the same ids, position by
      position, answer every lookup alike. */
  lemma {:induction false} FindByIdSameIds<T>(s: seq<T>, t: seq<T>, idOf: T -> Id, id: Id)
    requires |s| == |t| && forall k :: 0 <= k < |s| ==> idOf(s[k]) == idOf(t[k])
    ensures FindById(s, idOf, id) == FindById(t, idOf, id)
  {
    if s != [] {
      FindByIdSameIds(s[1..], t[1..], idOf, id);
    }
  }

  /** With unique ids, looking up the id of a stored document finds that document. */
  lemma FindByIdOfStored<T>(docs: seq<T>, idOf: T -> Id, k: nat)
    requires k < |docs|
    requires forall i, j :: 0 <= i < j < |docs| ==> idOf(docs[i]) != idOf(docs[j])
    ensures FindById(docs, idOf, idOf(docs[k])) == Some(k)
  {
  }

  /** In a well-formed database `findById` on the id of any stored gig or
      bid finds exactly that document, and no two users share an email. */
  lemma WellFormedLookups(db: Db)
    requires WellFormed(db)
    ensures forall k :: 0 <= k < |db.bids| ==> FindBid(db.bids, db.bids[k].id) == Some(k)
    ensures forall k :: 0 <= k < |db.gigs| ==> FindGig(db.gigs, db.gigs[k].id) == Some(k)
    ensures forall j, k :: 0 <= j < |db.users| && 0 <= k < |db.users| && db.users[j].email == db.users[k].email ==> j == k
  {
    forall k | 0 <= k < |db.bids| ensures FindBid(db.bids, db.bids[k].id) == Some(k) {
      FindByIdOfStored(db.bids, BidId, k);
    }
    forall k | 0 <= k < |db.gigs| ensures FindGig(db.gigs, db.gigs[k].id) == Some(k) {
      FindByIdOfStored(db.gigs, GigId, k);
    }
  }

  /** `Gig.find({ status: 'Open' })`. The model lists in insertion order;
      the source leaves the order of `find` unspecified. */
  function OpenGigs(gigs: seq<Gig>): (r: seq<Gig>)
    ensures |r| <= |gigs|
    ensures forall g :: g in r <==> g in gigs && g.status == Open
  {
    if gigs == [] then []
    else
      assert gigs == [gigs[0]] + gigs[1..];
      (if gigs[0].status == Open then [gigs[0]] else []) + OpenGigs(gigs[1..])
  }

  /** `Bid.find({ gigId })`, in insertion order as `OpenGigs`. */
  function BidsForGig(bids: seq<Bid>, gigId: Id): (r: seq<Bid>)
    ensures |r| <= |bids|
    ensures forall b :: b in r <==> b in bids && b.gigId == gigId
  {
    if bids == [] then []
    else
      assert bids == [bids[0]] + bids[1..];
      (if bids[0].gigId == gigId then [bids[0]] else []) + BidsForGig(bids[1..], gigId)
  }

  /** The number of hired bids on a gig. */
  function CountHired(bids: seq<Bid>, gigId: Id): nat {
    if bids == [] then 0
    else (if bids[0].gigId == gigId && bids[0].status == Hired then 1 else 0)
         + CountHired(bids[1..], gigId)
  }

  /** With at most one hired bid per gig, every gig counts at most one. */
  lemma {:induction false} AtMostOneHiredCount(bids: seq<Bid>, gigId: Id)
    requires AtMostOneHiredPerGig(bids)
    ensures CountHired(bids, gigId) <= 1
  {
    if bids != [] {
      if bids[0].gigId == gigId && bids[0].status == Hired {
        forall k | 0 <= k < |bids[1..]|
          ensures !(bids[1..][k].gigId == gigId && bids[1..][k].status == Hired)
        {
          assert bids[1..][k] == bids[k + 1];
        }
        CountHiredNone(bids[1..], gigId);
      } else {
        forall j, k | 0 <= j < |bids[1..]| && 0 <= k < |bids[1..]|
            && bids[1..][j].status == Hired && bids[1..][k].status == Hired
            && bids[1..][j].gigId == bids[1..][k].gigId
          ensures j == k
        {
          assert bids[1..][j] == bids[j + 1] && bids[1..][k] == bids[k + 1];
        }
        AtMostOneHiredCount(bids[1..], gigId);
      }
    }
  }

  lemma {:induction false} OpenGigsAppend(s: seq<Gig>, t: seq<Gig>)
    ensures OpenGigs(s + t) == OpenGigs(s) + OpenGigs(t)
  {
    if s == [] {
      assert s + t == t;
    } else {
      assert (s + t)[1..] == s[1..] + t;
      OpenGigsAppend(s[1..], t);
    }
  }

  lemma {:induction false} BidsForGigAppend(s: seq<Bid>, t: seq<Bid>, gigId: Id)
    ensures BidsForGig(s + t, gigId) == BidsForGig(s, gigId) + BidsForGig(t, gigId)
  {
    if s == [] {
      assert s + t == t;
    } else {
      assert (s + t)[1..] == s[1..] + t;
      BidsForGigAppend(s[1..], t, gigId);
    }
  }

  /** A gig with no hired bid in the list counts none. */
  lemma {:induction false} CountHiredNone(bids: seq<Bid>, gigId: Id)
    requires forall k :: 0 <= k < |bids| ==> !(bids[k].gigId == gigId && bids[k].status == Hired)
    ensures CountHired(bids, gigId) == 0
  {
    if bids != [] {
      CountHiredNone(bids[1..], gigId);
    }
  }

  /** A gig whose only hired bid sits at position `i` counts exactly one. */
  lemma {:induction false} CountHiredSingle(bids: seq<Bid>, gigId: Id, i: nat)
    requires i < |bids| && bids[i].gigId == gigId && bids[i].status == Hired
    requires forall k :: 0 <= k < |bids| && k != i ==> !(bids[k].gigId == gigId && bids[k].status == Hired)
    ensures CountHired(bids, gigId) == 1
  {
    if i == 0 {
      CountHiredNone(bids[1..], gigId);
    } else {
      CountHiredSingle(bids[1..], gigId, i - 1);
    }
  }
}
