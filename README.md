# GigFlow marketplace store, modelled in Dafny

GigFlow is a small freelance marketplace. Clients post gigs. Freelancers bid on them. The client hires one bid. The backend keeps three collections:

- Users have a unique email.
- Gigs are `Open` or `Assigned`, and start `Open`.
- Bids are `Pending`, `Hired` or `Rejected`, and start `Pending`.

This project models that store and its request handlers:

- register
- post a gig
- list the open gigs
- place a bid
- list the bids of a gig
- hire a bid

The hire is the central transition: the bid becomes `Hired`, its gig becomes `Assigned`, and every other bid on that gig becomes `Rejected`.

The project has three modules:

- `Models` (`models.dfy`) holds the schemas as datatypes. `Db` is the database value: the three collections in insertion order and a shared id counter. The module also holds the store invariant (`WellFormed`, `AtMostOneHiredPerGig`), one generic id lookup (`FindById`, used as `FindBid` and `FindGig`), the two listing filters (`OpenGigs`, `BidsForGig`) and the count of hired bids per gig.
- `Routes` (`routes.dfy`) writes each handler as a pure transition `Db -> (Db, outcome)`. The contract of each transition states its effect. The lemmas relate several calls: idempotence, single hire, invariant preservation, listing effects and the guarded variant.
- `Store` (`store.dfy`) holds the class `MarketStore`. Its `seq` fields are updated in place. Each handler method is proved to leave exactly the database of its `Routes` transition. The five route methods (`Register`, `PostGig`, `PlaceBid`, `Hire`, `HireChecked`) also require and keep the invariant. Loops stand for the database's own scans: `findById` (`ScanById`), `updateMany` (the bulk update of all matching records), and the unique-email index check. `ListOpenGigs` and `ListBids` are read-only functions over `OpenGigs` and `BidsForGig`.

The caller of an authenticated route is passed in as an already-resolved id and name. The password hash is an opaque string. Document ids come from one counter shared by all collections, as Mongo ObjectIds are unique across collections.

## Code versus design

The system's design describes a guarded hire, but the code does not implement it. The model follows the code. `HireOn` and `MarketStore.Hire` are the handler as written:

- It does not check that the caller owns the gig.
- It does not check that the gig is `Open` or that the bid is `Pending`.
- It rejects every other bid on the gig, whether it is `Pending`, `Hired` or `Rejected`.
- Replaying a hire succeeds again and changes nothing (`HireIdempotent`). The design says a replay returns `Conflict`.
- Hiring a second bid on an `Assigned` gig moves the hire to that bid (`HireReplacesEarlierHire`).
- Placing a bid does not look the gig up. A bid can name a missing or `Assigned` gig, and its message can be empty.
- Posting a gig does not validate the title or the budget.

Even so, the as-written hire never leaves two hired bids on one gig (`HireKeepsInvariant`), because it rejects every sibling bid.

The guarded hire is modelled separately, as `HireCheckedOn` and `MarketStore.HireChecked`. It runs these checks in order: the bid exists (else `NotFound`), its gig exists (else `InconsistentState`), the caller owns the gig (else `Forbidden`), the gig is `Open` and the bid is `Pending` (else `Conflict`). Only then does it run the as-written transition of `HireOn`. That transition rejects every sibling, not only the `Pending` ones the design names.

## Model

| member | source | states |
|---|---|---|
| Models.FindById | gigiflow/backend/server.js:108-109 | `findById` on a collection: the first position holding the id; `None` exactly when no document has it |
| Models.WellFormedLookups | gigiflow/backend/server.js:17 | in a well-formed store (unique ids, unique emails by the index of line 17), looking up a stored gig's or bid's id finds exactly it; the email clause only unpacks the invariant's unique-email conjunct for either order of the two users |
| Models.AtMostOneHiredCount | gigiflow/backend/server.js:112-122 | under the invariant, every gig has at most one hired bid by count |
| Models.OpenGigs | gigiflow/backend/server.js:89-92 | `Gig.find({status:'Open'})`: a gig is listed if and only if it is in the collection and `Open` |
| Models.BidsForGig | gigiflow/backend/server.js:101-104 | `Bid.find({gigId})`: a bid is listed if and only if it is in the collection and references that gig |
| Models.OpenGigsAppend | gigiflow/backend/server.js:90 | the open-gig listing keeps insertion order (the order the model fixes): listing a concatenation concatenates the listings |
| Models.BidsForGigAppend | gigiflow/backend/server.js:102 | the bids-of-a-gig listing keeps insertion order (the order the model fixes): listing a concatenation concatenates the listings |
| Models.CountHiredSingle | gigiflow/backend/server.js:112-122 | a gig whose only hired bid is at one position has a hired-bid count of exactly one |
| Routes.RegisterOn | gigiflow/backend/server.js:48-55 | `Duplicate` exactly when the email is taken, and then nothing changes; otherwise one user with the given name, email and hash and a fresh id is appended |
| Routes.PostGigOn | gigiflow/backend/server.js:83-86 | appends exactly one gig: fresh id, status `Open` (schema default, line 27), owner is the caller, given fields; nothing else changes |
| Routes.PlaceBidOn | gigiflow/backend/server.js:95-98 | appends exactly one bid: fresh id, `Pending` (line 36), freelancer is the caller, `email` is the caller's name; no gig check; nothing else changes |
| Routes.AssignGig | gigiflow/backend/server.js:116 | `findByIdAndUpdate(gigId, {status:'Assigned'})`: gigs with that id become `Assigned`, only their status changes, every other gig is unchanged |
| Routes.RejectOthers | gigiflow/backend/server.js:119-122 | `updateMany({gigId, _id != keep}, {status:'Rejected'})`: exactly the bids on that gig with another id become `Rejected`, only their status changes, the rest are unchanged |
| Routes.HireOn | gigiflow/backend/server.js:107-125 | missing bid: `NotFound` and nothing changes. Otherwise `Success`: the bid is `Hired`, its gig `Assigned`, other gigs untouched, every other bid on that gig `Rejected` whatever its prior status, bids on other gigs untouched, users untouched |
| Routes.HireCheckedOn | gigiflow/backend/server.js:107-125 | guarded hire, separate from the code: `NotFound` exactly when the bid is missing; `InconsistentState` exactly when its gig is missing; `Forbidden` exactly when the caller does not own the gig; `Conflict` exactly when the owner calls on a gig not `Open` or a bid not `Pending`; `Success` otherwise, with the state of `HireOn`; every failure leaves the database unchanged |
| Routes.SingleHire | gigiflow/backend/server.js:112-122 | after a hire, exactly one bid on the gig is `Hired`, and a bid on it is `Hired` if and only if it is the hired bid |
| Routes.HireIdempotent | gigiflow/backend/server.js:112-122 | hiring the same bid twice equals hiring it once, state and outcome |
| Routes.HireReplacesEarlierHire | gigiflow/backend/server.js:107-125 | as written, hiring a second bid on the same gig succeeds: the second is `Hired` and the first `Rejected` |
| Routes.HireClosesGig | gigiflow/backend/server.js:116 | after a hire, the open-gig listing is the old one without the hired bid's gig |
| Routes.PostGigListsOpen | gigiflow/backend/server.js:83-92 | a posted gig appears at the end of the open-gig listing (in the insertion order the model fixes), which is otherwise unchanged |
| Routes.PlaceBidListsBid | gigiflow/backend/server.js:95-104 | a placed bid appears at the end of its gig's bid listing (in the insertion order the model fixes); other gigs' listings are unchanged |
| Routes.RegisterKeepsInvariant | gigiflow/backend/server.js:48-55 | registering keeps ids fresh and unique and emails unique (the unique index of line 17) |
| Routes.PostGigKeepsInvariant | gigiflow/backend/server.js:83-86 | posting a gig keeps the store invariant |
| Routes.PlaceBidKeepsInvariant | gigiflow/backend/server.js:95-98 | placing a bid keeps the store invariant, at most one hired bid per gig included |
| Routes.HireKeepsInvariant | gigiflow/backend/server.js:107-125 | the unguarded hire keeps the store invariant: never two hired bids on one gig |
| Routes.HireKeepsShape | gigiflow/backend/server.js:112-122 | a hire changes statuses only: every other field of every gig and bid, the lengths, the users and the id counter are kept |
| Routes.HireCheckedReplayConflicts | gigiflow/backend/server.js:107-125 | guarded variant: replaying a successful hire is `Conflict` and changes nothing |
| Routes.HireCheckedSecondConflicts | gigiflow/backend/server.js:107-125 | guarded variant: after a successful hire, hiring any bid on the same gig by the gig's owner is `Conflict` and changes nothing |
| Routes.HireCheckedOtherForbidden | gigiflow/backend/server.js:107-125 | guarded variant: after a successful hire, hiring any bid on the same gig by anyone but the gig's owner is `Forbidden` and changes nothing |
| Routes.ScenarioSetup | gigiflow/backend/server.js:83-98 | posting one gig and placing two bids on an empty store gives one `Open` gig and two `Pending` bids with ids 0, 1, 2 |
| Routes.ScenarioHire | gigiflow/backend/server.js:107-125 | on that store, hiring the first bid assigns the gig, hires it and rejects the other; a guarded rehire is `Conflict`, an unguarded one moves the hire |
| Store.ScanById | gigiflow/backend/server.js:108 | the collection scan behind `findById` returns `FindById` |
| Store.MarketStore.ListOpenGigs | gigiflow/backend/server.js:89-92 | GET /api/gigs: a gig is returned if and only if it is stored and `Open` |
| Store.MarketStore.ListBids | gigiflow/backend/server.js:101-104 | GET /api/bids/:gigId: a bid is returned if and only if it is stored and references that gig |
| Store.MarketStore.EmailInUse | gigiflow/backend/server.js:17 | the unique-index scan: true exactly when some user has the email |
| Store.MarketStore.Register | gigiflow/backend/server.js:48-55 | leaves the state and result of `RegisterOn`; keeps the invariant |
| Store.MarketStore.PostGig | gigiflow/backend/server.js:83-86 | leaves the state and result of `PostGigOn`; keeps the invariant |
| Store.MarketStore.PlaceBid | gigiflow/backend/server.js:95-98 | leaves the state and result of `PlaceBidOn`; keeps the invariant |
| Store.MarketStore.MarkGigAssigned | gigiflow/backend/server.js:116 | the gigs with that id become `Assigned`; every other gig, and every other collection, is unchanged |
| Store.MarketStore.RejectOtherBids | gigiflow/backend/server.js:119-122 | `updateMany`: bids on the gig with another id become `Rejected`; every other bid, and every other collection, is unchanged |
| Store.MarketStore.CommitHire | gigiflow/backend/server.js:111-122 | the three writes in source order leave the state of a successful `HireOn` |
| Store.MarketStore.Hire | gigiflow/backend/server.js:107-125 | leaves the state and outcome of `HireOn`; keeps the invariant |
| Store.MarketStore.HireChecked | gigiflow/backend/server.js:107-125 | guarded variant: leaves the state and outcome of `HireCheckedOn`; keeps the invariant |

## Left out

- Express routing, CORS, cookie parsing, JSON bodies and HTTP status codes, and the `listen` call (server.js:1-12, 127). Outcomes are typed values (`Registered`/`Duplicate`, `Success`/`NotFound`/…).
- The login route and the token middleware (server.js:57-80). bcrypt and JWT are foreign cryptographic calls. The caller arrives as an authenticated id and name, and the hash is opaque.
- A `bcrypt.hash` failure before the `try` in register (server.js:50) is not modelled.
- The database connection and environment configuration (server.js:40-43) are I/O.
- The three hire writes (server.js:113, 116, 119) are separate awaits with no transaction. The model runs them as one sequential step. It proves nothing about interleavings with concurrent requests. It also assumes every store write succeeds. The source has no `try` or transaction around them. A failure of the write at line 116 after the save at line 113 would leave a `Hired` bid on an `Open` gig with its sibling bids still `Pending`. A failure of the `updateMany` at line 119 would leave the gig `Assigned` with its sibling bids partly or wholly still `Pending`, since that update is not atomic across documents. The model reaches the first state only through a bid that names a gig id not yet issued and is hired before that gig is posted. It reaches the second only through a bid placed on the gig after the hire, since placing a bid does not look the gig up.
- The `...req.body` spread on post gig and place bid (server.js:84, 96). A client could send `status` or `_id` in the body and override the defaults. Creation takes typed fields (title, description, budget; gigId, message) instead. The cost: a body with `status: 'Hired'` at line 96 would create a second `Hired` bid on an already assigned gig, so the `Pending` of `PlaceBidOn` and the at-most-one-hired part of `PlaceBidKeepsInvariant`, `HireKeepsInvariant` and the `Valid()` of `MarketStore.PlaceBid` and `MarketStore.Hire` hold only because creation takes typed fields.
- Listing order: `Gig.find` and `Bid.find` without a sort (server.js:90, 102) return documents in no guaranteed order. The model fixes insertion order. So `OpenGigsAppend`, `BidsForGigAppend`, `PostGigListsOpen` and `PlaceBidListsBid` say where a new document appears only under that choice. The membership statements of `OpenGigs`, `BidsForGig`, `ListOpenGigs` and `ListBids` do not depend on it.
- The budget is a JavaScript number. It is stored as an opaque `int`, and the model states no arithmetic about it.
- `MarkGigAssigned` updates every gig with the id, where `findByIdAndUpdate` touches the first one. This is the same under the invariant's unique ids.
- The React front end (frontend/src/App.jsx) is presentation, including its rules for when the bid form and the Hire button are shown.
