/**
 * Requests for government authorisation
 * (backend/controllers/govRequest.controller.js over
 * backend/models/GovAuthorizationRequest.js): a user files a pending
 * request; an administrator approves or rejects it, which also sets or
 * clears the user's `isGovernmentAuthorized` flag.
 *
 * The requests collection is the class `GovRequests` and the users
 * collection `Store.Users`. The caller is given by its id and its `isAdmin`
 * flag; `new Date()` is the parameter `now` and a created document's id the
 * parameter `freshId`.
 */
module GovRequestController {
  import opened Js
  import opened Store

  const REQUEST_STATUSES: seq<string> := ["pending", "approved", "rejected"]

  datatype GovRequest = GovRequest(
    userId: Id, email: string, status: string,
    reviewedBy: Option<Id>, reviewedAt: Option<int>, notes: Option<string>)

  /** What the schema accepts: a non-empty email and a known status. */
  predicate Stored(q: GovRequest) {
    q.email != [] && q.status in REQUEST_STATUSES
  }

  /** No user has two pending requests. */
  ghost predicate OnePendingPerUser(records: map<Id, GovRequest>) {
    forall a, b ::
      (&& a in records && b in records
       && records[a].status == "pending" && records[b].status == "pending"
       && records[a].userId == records[b].userId) ==> a == b
  }

  /** `findOne({ userId, status: 'pending' })` finds something. */
  predicate HasPending(records: map<Id, GovRequest>, userId: Id) {
    exists k :: k in records && records[k].status == "pending" && records[k].userId == userId
  }

  /** The requests collection, newest first. */
  class GovRequests {
    var ids: seq<Id>
    var records: map<Id, GovRequest>

    ghost predicate Valid()
      reads this
    {
      Lists(ids, records) && forall k :: k in records ==> Stored(records[k])
    }

    constructor(ids: seq<Id>, records: map<Id, GovRequest>)
      requires Lists(ids, records) && forall k :: k in records ==> Stored(records[k])
      ensures Valid() && this.ids == ids && this.records == records
    {
      this.ids := ids;
      this.records := records;
    }

    /** `getAllGovRequests`: 403 (`None`) for a caller who is not an
        administrator, otherwise every request, newest first. */
    function AllFor(callerIsAdmin: bool): (r: Option<seq<GovRequest>>)
      reads this
      requires Valid()
      ensures r.None? <==> !callerIsAdmin
      ensures r.Some? ==> |r.value| == |ids| && forall i :: 0 <= i < |ids| ==> r.value[i] == records[ids[i]]
    {
      if !callerIsAdmin then None
      else Some(seq(|ids|, i reads this requires 0 <= i < |ids| && Valid() => records[ids[i]]))
    }

    /** `getMyGovRequest`: the newest request of `userId`, if any. */
    function LatestOf(userId: Id): (r: Option<GovRequest>)
      reads this
      requires Valid()
      ensures r.None? <==> forall i :: 0 <= i < |ids| ==> records[ids[i]].userId != userId
      ensures r.Some? ==> exists i :: 0 <= i < |ids| && r.value == records[ids[i]] && r.value.userId == userId &&
                                     forall j :: 0 <= j < i ==> records[ids[j]].userId != userId
    {
      FirstOf(ids, records, userId)
    }
  }

  /** The first request of `userId` in `ids`. */
  function FirstOf(ids: seq<Id>, records: map<Id, GovRequest>, userId: Id): (r: Option<GovRequest>)
    requires forall k :: k in ids ==> k in records
    ensures r.None? <==> forall i :: 0 <= i < |ids| ==> records[ids[i]].userId != userId
    ensures r.Some? ==> exists i :: 0 <= i < |ids| && r.value == records[ids[i]] && r.value.userId == userId &&
                                   forall j :: 0 <= j < i ==> records[ids[j]].userId != userId
  {
    if ids == [] then None
    else if records[ids[0]].userId == userId then Some(records[ids[0]])
    else
      var rest := FirstOf(ids[1..], records, userId);
      assert forall i :: 0 < i < |ids| ==> ids[i] == ids[1..][i - 1];
      rest
  }

  // ---------------------------------------------------------------------------
  // createGovRequest

  /** 400 for a missing email or password, 400 for a pending request, 400
      for an authorised user, 500 for a caller without a user document or
      an email the schema refuses (blank after trimming), 201 with the new
      request. */
  datatype CreateOutcome =
    | CredentialsRequired
    | AlreadyPending
    | AlreadyAuthorized
    | Failed
    | Created(id: Id, request: GovRequest)

  /** The new request: the email lower-cased and trimmed, pending, not
      reviewed. The password is only checked for presence. */
  function NewRequest(userId: Id, email: string): (q: GovRequest)
    ensures q.userId == userId && q.status == "pending"
    ensures q.email == Trim(ToLower(email))
    ensures q.reviewedBy.None? && q.reviewedAt.None? && q.notes.None?
  {
    GovRequest(userId, Trim(ToLower(email)), "pending", None, None, None)
  }

  /** Adding a pending request for a user who has none keeps every user at
      one pending request at most. */
  lemma CreationKeepsOnePending(records: map<Id, GovRequest>, k: Id, q: GovRequest)
    requires OnePendingPerUser(records) && k !in records && !HasPending(records, q.userId)
    ensures OnePendingPerUser(records[k := q])
  {
  }

  /** `createGovRequest`. */
  method CreateGovRequest(db: GovRequests, users: Users, userId: Id, email: Option<string>, password: Option<string>,
                          freshId: Id) returns (r: CreateOutcome)
    modifies db
    requires db.Valid() && users.Valid() && freshId !in db.records
    ensures db.Valid()
    ensures !Truthy(email) || !Truthy(password) ==> r == CredentialsRequired
    ensures Truthy(email) && Truthy(password) && HasPending(old(db.records), userId) ==> r == AlreadyPending
    ensures (&& Truthy(email) && Truthy(password) && !HasPending(old(db.records), userId)
             && userId in users.records && Flag(users.records[userId].isGovernmentAuthorized)) ==> r == AlreadyAuthorized
    ensures r.Created? <==>
              && Truthy(email) && Truthy(password) && !HasPending(old(db.records), userId)
              && userId in users.records && !Flag(users.records[userId].isGovernmentAuthorized)
              && NewRequest(userId, email.value).email != []
    ensures r.Created? ==>
              && r.id == freshId && r.request == NewRequest(userId, email.value)
              && db.ids == [freshId] + old(db.ids) && db.records == old(db.records)[freshId := r.request]
    ensures !r.Created? ==> db.ids == old(db.ids) && db.records == old(db.records)
    ensures OnePendingPerUser(old(db.records)) ==> OnePendingPerUser(db.records)
  {
    if email.None? || email.value == [] || password.None? || password.value == [] {
      return CredentialsRequired;
    }
    var pending := exists k :: k in db.records && db.records[k].status == "pending" && db.records[k].userId == userId;
    if pending {
      return AlreadyPending;
    }
    if userId !in users.records {
      return Failed;
    }
    if Flag(users.records[userId].isGovernmentAuthorized) {
      return AlreadyAuthorized;
    }
    var request := NewRequest(userId, email.value);
    if request.email == [] {
      return Failed;
    }
    if OnePendingPerUser(db.records) {
      CreationKeepsOnePending(db.records, freshId, request);
    }
    db.ids, db.records := [freshId] + db.ids, db.records[freshId := request];
    r := Created(freshId, request);
  }

  // ---------------------------------------------------------------------------
  // approveGovRequest / rejectGovRequest

  /** Why a review is refused: 403, 404, or 400 naming the current status. */
  datatype Refusal = Forbidden | NotFound | AlreadyReviewed(status: string)

  /** The checks shared by approve and reject, in their order: the admin
      gate, then existence, then the request must still be pending. */
  function ReviewRefusal(callerIsAdmin: bool, request: Option<GovRequest>): (r: Option<Refusal>)
    ensures !callerIsAdmin ==> r == Some(Forbidden)
    ensures callerIsAdmin && request.None? ==> r == Some(NotFound)
    ensures callerIsAdmin && request.Some? ==>
              (r.None? <==> request.value.status == "pending") &&
              (r.Some? ==> r == Some(AlreadyReviewed(request.value.status)))
  {
    if !callerIsAdmin then Some(Forbidden)
    else if request.None? then Some(NotFound)
    else if request.value.status != "pending" then Some(AlreadyReviewed(request.value.status))
    else None
  }

  /** The approved request: status, reviewer and review time set; nothing
      else changes. */
  function Approve(q: GovRequest, reviewer: Id, now: int): (a: GovRequest)
    ensures a.status == "approved" && a.reviewedBy == Some(reviewer) && a.reviewedAt == Some(now)
    ensures a.(status := q.status, reviewedBy := q.reviewedBy, reviewedAt := q.reviewedAt) == q
  {
    q.(status := "approved", reviewedBy := Some(reviewer), reviewedAt := Some(now))
  }

  /** The rejected request: status, reviewer and review time set, the notes
      replaced (trimmed by the schema) only when non-empty ones are given;
      nothing else changes. */
  function Reject(q: GovRequest, reviewer: Id, notes: Option<string>, now: int): (a: GovRequest)
    ensures a.status == "rejected" && a.reviewedBy == Some(reviewer) && a.reviewedAt == Some(now)
    ensures Truthy(notes) ==> a.notes == Some(Trim(notes.value))
    ensures !Truthy(notes) ==> a.notes == q.notes
    ensures a.(status := q.status, reviewedBy := q.reviewedBy, reviewedAt := q.reviewedAt, notes := q.notes) == q
  {
    q.(status := "rejected", reviewedBy := Some(reviewer), reviewedAt := Some(now),
       notes := if Truthy(notes) then Some(Trim(notes.value)) else q.notes)
  }

  /** Approved and rejected are final: any later review of the same request
      is refused with 400, even by an administrator. */
  lemma ReviewIsFinal(q: GovRequest, reviewer: Id, notes: Option<string>, now: int)
    ensures ReviewRefusal(true, Some(Approve(q, reviewer, now))) == Some(AlreadyReviewed("approved"))
    ensures ReviewRefusal(true, Some(Reject(q, reviewer, notes, now))) == Some(AlreadyReviewed("rejected"))
  {
  }

  /** Reviewing a request takes it out of the pending ones, so the
      one-pending-request property survives. */
  lemma ReviewKeepsOnePending(records: map<Id, GovRequest>, k: Id, q: GovRequest)
    requires OnePendingPerUser(records) && q.status != "pending"
    ensures OnePendingPerUser(records[k := q])
  {
    var m := records[k := q];
    forall a, b | a in m && b in m && m[a].status == "pending" && m[b].status == "pending" && m[a].userId == m[b].userId
      ensures a == b
    {
      assert a != k && b != k;
    }
  }

  datatype ReviewOutcome = Refused(why: Refusal) | Reviewed(request: GovRequest)

  /** `approveGovRequest`: an administrator approves a pending request,
      which authorises its user (when the user still exists). */
  method ApproveGovRequest(db: GovRequests, users: Users, callerIsAdmin: bool, callerId: Id, id: Id, now: int)
    returns (r: ReviewOutcome)
    modifies db, users
    requires db.Valid() && users.Valid()
    ensures db.Valid() && db.ids == old(db.ids) && users.Valid() && users.ids == old(users.ids)
    ensures var found := if id in old(db.records) then Some(old(db.records)[id]) else None;
            ReviewRefusal(callerIsAdmin, found).Some? ==>
              && r == Refused(ReviewRefusal(callerIsAdmin, found).value)
              && db.records == old(db.records) && users.records == old(users.records)
    ensures var found := if id in old(db.records) then Some(old(db.records)[id]) else None;
            ReviewRefusal(callerIsAdmin, found).None? ==>
              && r == Reviewed(Approve(old(db.records)[id], callerId, now))
              && db.records == old(db.records)[id := r.request]
              && var u := r.request.userId;
                 (u in old(users.records) ==>
                    users.records == old(users.records)[u := old(users.records)[u].(isGovernmentAuthorized := Some(true))])
                 && (u !in old(users.records) ==> users.records == old(users.records))
    ensures OnePendingPerUser(old(db.records)) ==> OnePendingPerUser(db.records)
  {
    var found := if id in db.records then Some(db.records[id]) else None;
    var refusal := ReviewRefusal(callerIsAdmin, found);
    if refusal.Some? {
      return Refused(refusal.value);
    }
    var approved := Approve(db.records[id], callerId, now);
    if OnePendingPerUser(db.records) {
      ReviewKeepsOnePending(db.records, id, approved);
    }
    db.records := db.records[id := approved];
    users.SetGovernmentAuthorized(approved.userId, true);
    r := Reviewed(approved);
  }

  /** `rejectGovRequest`: an administrator rejects a pending request, which
      withdraws its user's authorisation (when the user still exists). */
  method RejectGovRequest(db: GovRequests, users: Users, callerIsAdmin: bool, callerId: Id, id: Id,
                          notes: Option<string>, now: int) returns (r: ReviewOutcome)
    modifies db, users
    requires db.Valid() && users.Valid()
    ensures db.Valid() && db.ids == old(db.ids) && users.Valid() && users.ids == old(users.ids)
    ensures var found := if id in old(db.records) then Some(old(db.records)[id]) else None;
            ReviewRefusal(callerIsAdmin, found).Some? ==>
              && r == Refused(ReviewRefusal(callerIsAdmin, found).value)
              && db.records == old(db.records) && users.records == old(users.records)
    ensures var found := if id in old(db.records) then Some(old(db.records)[id]) else None;
            ReviewRefusal(callerIsAdmin, found).None? ==>
              && r == Reviewed(Reject(old(db.records)[id], callerId, notes, now))
              && db.records == old(db.records)[id := r.request]
              && var u := r.request.userId;
                 (u in old(users.records) ==>
                    users.records == old(users.records)[u := old(users.records)[u].(isGovernmentAuthorized := Some(false))])
                 && (u !in old(users.records) ==> users.records == old(users.records))
    ensures OnePendingPerUser(old(db.records)) ==> OnePendingPerUser(db.records)
  {
    var found := if id in db.records then Some(db.records[id]) else None;
    var refusal := ReviewRefusal(callerIsAdmin, found);
    if refusal.Some? {
      return Refused(refusal.value);
    }
    var rejected := Reject(db.records[id], callerId, notes, now);
    if OnePendingPerUser(db.records) {
      ReviewKeepsOnePending(db.records, id, rejected);
    }
    db.records := db.records[id := rejected];
    users.SetGovernmentAuthorized(rejected.userId, false);
    r := Reviewed(rejected);
  }
}
