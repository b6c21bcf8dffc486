/**
 * The demo assignment workflow (backend/controllers/assignment.controller.js
 * over backend/models/Assignment.js): assignments that bundle a selection of
 * generated demo potholes, bucketed for listing, created from a request body
 * and moved between ASSIGNED, IN_PROGRESS and FIXED.
 *
 * The `assignments` collection is the class `Assignments`; `Date.now()` is
 * the parameter `now` (milliseconds) and a created document's id is the
 * parameter `freshId`.
 */
module AssignmentController {
  import opened Js
  import opened Store
  import PotholeGenerator

  const TEN_DAYS_MS: int := 10 * 24 * 60 * 60 * 1000
  const NOT_ASSIGNED_LIMIT: nat := 40
  const ASSIGNMENT_STATUSES: seq<string> := ["ASSIGNED", "IN_PROGRESS", "FIXED"]
  const OPEN_STATUSES: seq<string> := ["ASSIGNED", "IN_PROGRESS"]
  const FIXED_STATUSES: seq<string> := ["FIXED"]
  const SELECTION_SEVERITIES: seq<string> := ["low", "medium", "high"]
  const SELECTION_STATUSES: seq<string> := ["open", "in_progress", "fixed"]

  // ---------------------------------------------------------------------------
  // sanitizePotholePayload

  /** A pothole id as the client sends it: the demo generator's numeric id,
      or a string. */
  datatype RawId = NumericId(n: int) | TextId(text: string)

  /** `id.toString()` (integral numbers only). */
  function RawIdText(raw: RawId): string {
    match raw
    case NumericId(n) => IntToString(n)
    case TextId(t) => t
  }

  /** One element of the request's `potholes` array; an absent field is
      `None`. */
  datatype PotholePayload = PotholePayload(
    potholeId: Option<RawId>, latitude: Option<real>, longitude: Option<real>,
    severity: Option<string>, status: Option<string>,
    segmentLabel: Option<string>, description: Option<string>, depthEstimation: Option<real>)

  /** A stored pothole selection (the `potholeSelectionSchema`). */
  datatype Selection = Selection(
    potholeId: Option<string>, latitude: Option<real>, longitude: Option<real>,
    severity: string, status: string,
    segmentLabel: Option<string>, description: Option<string>, depthEstimation: Option<real>)

  /** `sanitizePotholePayload(pothole)`: the id as a string, severity
      defaulting to "medium", status to "open", the segment label falling
      back to the description, the rest copied. */
  function SanitizePotholePayload(p: PotholePayload): (s: Selection)
    ensures p.potholeId.None? ==> s.potholeId.None?
    ensures p.potholeId.Some? ==> s.potholeId == Some(RawIdText(p.potholeId.value))
    ensures s.severity == (if Truthy(p.severity) then p.severity.value else "medium")
    ensures s.status == (if Truthy(p.status) then p.status.value else "open")
    ensures s.severity != [] && s.status != []
    ensures Truthy(p.segmentLabel) ==> s.segmentLabel == p.segmentLabel
    ensures !Truthy(p.segmentLabel) ==> s.segmentLabel == p.description
    ensures s.latitude == p.latitude && s.longitude == p.longitude
    ensures s.description == p.description && s.depthEstimation == p.depthEstimation
  {
    Selection(
      if p.potholeId.Some? then Some(RawIdText(p.potholeId.value)) else None,
      p.latitude, p.longitude,
      if Truthy(p.severity) then p.severity.value else "medium",
      if Truthy(p.status) then p.status.value else "open",
      if Truthy(p.segmentLabel) then p.segmentLabel else p.description,
      p.description, p.depthEstimation)
  }

  /** What the selection schema accepts: a non-empty id (it is required)
      and severity and status from their enumerations. */
  predicate Storable(s: Selection) {
    && s.potholeId.Some? && s.potholeId.value != []
    && s.severity in SELECTION_SEVERITIES
    && s.status in SELECTION_STATUSES
  }

  /** A sanitized payload passes the schema exactly when it names a
      non-empty id and any severity or status it supplies is a known one;
      leaving both out is always acceptable. */
  lemma SanitizedIsStorable(p: PotholePayload)
    ensures Storable(SanitizePotholePayload(p)) <==>
              && p.potholeId.Some? && RawIdText(p.potholeId.value) != []
              && (!Truthy(p.severity) || p.severity.value in SELECTION_SEVERITIES)
              && (!Truthy(p.status) || p.status.value in SELECTION_STATUSES)
  {
  }

  // ---------------------------------------------------------------------------
  // The collection

  /** The summary text: supplied by the client, or `summarizeCluster` of
      the selection. */
  datatype Summary = GivenSummary(text: string) | ComputedSummary(cluster: PotholeGenerator.ClusterSummary)

  datatype Assignment = Assignment(
    contractorName: string, contractorContact: Option<string>, notes: Option<string>,
    potholes: seq<Selection>, status: string, createdBy: Id, fixedAt: Option<int>, summary: Summary)

  /** What the assignment schema accepts. */
  predicate Stored(a: Assignment) {
    && a.contractorName != []
    && a.status in ASSIGNMENT_STATUSES
    && a.potholes != []
    && (forall i :: 0 <= i < |a.potholes| ==> Storable(a.potholes[i]))
  }

  /** The `assignments` collection, newest first. */
  class Assignments {
    var ids: seq<Id>
    var records: map<Id, Assignment>

    ghost predicate Valid()
      reads this
    {
      Lists(ids, records) && forall k :: k in records ==> Stored(records[k])
    }

    constructor(ids: seq<Id>, records: map<Id, Assignment>)
      requires Lists(ids, records) && forall k :: k in records ==> Stored(records[k])
      ensures Valid() && this.ids == ids && this.records == records
    {
      this.ids := ids;
      this.records := records;
    }
  }

  // ---------------------------------------------------------------------------
  // getAssignments

  /** A FIXED assignment whose `fixedAt` lies strictly before the cutoff
      ten days before `now`. */
  predicate IsStale(a: Assignment, now: int) {
    a.status == "FIXED" && a.fixedAt.Some? && a.fixedAt.value < now - TEN_DAYS_MS
  }

  /** What the clean-up keeps: the assignments that are not stale. */
  function Live(now: int): Assignment -> bool {
    (a: Assignment) => !IsStale(a, now)
  }

  /** Membership of a listing bucket. */
  function HasStatus(statuses: seq<string>): Assignment -> bool {
    (a: Assignment) => a.status in statuses
  }

  /** Dropping the stale assignments from a valid collection leaves a
      valid one: the surviving ids list exactly the remaining documents,
      none of them stale, all still acceptable to the schema. */
  lemma RemainingIsListed(ids: seq<Id>, records: map<Id, Assignment>, now: int)
    requires Lists(ids, records) && forall k :: k in records ==> Stored(records[k])
    ensures Lists(Surviving(ids, records, Live(now)), Retain(records, Live(now)))
    ensures forall k :: k in Retain(records, Live(now)) ==>
              Stored(Retain(records, Live(now))[k]) && !IsStale(Retain(records, Live(now))[k], now)
  {
    RetainIsListed(ids, records, Live(now));
  }

  /** After the clean-up: `assigned` and `fixed` are disjoint, hold no stale
      assignment, and between them list every remaining assignment. */
  lemma BucketsPartitionActive(ids: seq<Id>, records: map<Id, Assignment>, now: int)
    requires forall k :: k in records ==> Stored(records[k])
    requires forall k :: k in ids ==> k in records && !IsStale(records[k], now)
    ensures forall a :: a in Bucket(ids, records, HasStatus(OPEN_STATUSES)) ==>
              a !in Bucket(ids, records, HasStatus(FIXED_STATUSES))
    ensures forall a :: a in Bucket(ids, records, HasStatus(OPEN_STATUSES)) + Bucket(ids, records, HasStatus(FIXED_STATUSES)) ==>
              !IsStale(a, now)
    ensures forall k :: k in ids ==>
              records[k] in Bucket(ids, records, HasStatus(OPEN_STATUSES)) ||
              records[k] in Bucket(ids, records, HasStatus(FIXED_STATUSES))
  {
    var open, fixed := Bucket(ids, records, HasStatus(OPEN_STATUSES)), Bucket(ids, records, HasStatus(FIXED_STATUSES));
    forall a | a in open + fixed ensures !IsStale(a, now) {
      var k :| k in ids && records[k] == a;
    }
    forall k | k in ids ensures records[k] in open || records[k] in fixed {
      assert records[k].status in ASSIGNMENT_STATUSES;
    }
  }

  /** The ids of the potholes selected by the given assignments. */
  function Taken(records: map<Id, Assignment>): set<string> {
    set k, s | k in records && s in records[k].potholes && s.potholeId.Some? :: s.potholeId.value
  }

  /** A generated pothole that may be offered: not fixed, and not selected
      by any remaining assignment. */
  predicate Free(p: PotholeGenerator.GeneratedPothole, taken: set<string>) {
    p.status != "fixed" && IntToString(p.id) !in taken
  }

  /** The summaries of `ps`, in order. */
  function Summaries(ps: seq<PotholeGenerator.GeneratedPothole>): (r: seq<PotholeGenerator.PotholeSummary>)
    ensures |r| == |ps| && forall i :: 0 <= i < |ps| ==> r[i] == PotholeGenerator.MapToSummary(ps[i])
  {
    seq(|ps|, i requires 0 <= i < |ps| => PotholeGenerator.MapToSummary(ps[i]))
  }

  /** `notAssigned`: the summaries of the free generated potholes, in
      generation order, cut to the first 40. */
  function NotAssigned(ps: seq<PotholeGenerator.GeneratedPothole>, taken: set<string>): (r: seq<PotholeGenerator.PotholeSummary>)
    ensures |r| <= NOT_ASSIGNED_LIMIT
    ensures forall i :: 0 <= i < |r| ==>
              exists p :: p in ps && Free(p, taken) && r[i] == PotholeGenerator.MapToSummary(p)
    ensures |r| < NOT_ASSIGNED_LIMIT ==>
              forall p :: p in ps && Free(p, taken) ==> PotholeGenerator.MapToSummary(p) in r
  {
    var free := Filter(ps, p => Free(p, taken));
    var summaries := Summaries(free);
    var r := if |summaries| <= NOT_ASSIGNED_LIMIT then summaries else summaries[..NOT_ASSIGNED_LIMIT];
    assert forall i :: 0 <= i < |r| ==> r[i] == PotholeGenerator.MapToSummary(free[i]) && free[i] in free;
    assert |r| < NOT_ASSIGNED_LIMIT ==> r == summaries;
    assert forall p :: p in free ==> PotholeGenerator.MapToSummary(p) in summaries by {
      forall p | p in free ensures PotholeGenerator.MapToSummary(p) in summaries {
        var i :| 0 <= i < |free| && free[i] == p;
        assert summaries[i] == PotholeGenerator.MapToSummary(p);
      }
    }
    r
  }

  /** Generating one more pothole appends its summary to the offer exactly
      when it is free and fewer than 40 are offered so far: the offer keeps
      generation order and holds the first 40 free potholes. */
  lemma NotAssignedSnoc(ps: seq<PotholeGenerator.GeneratedPothole>, p: PotholeGenerator.GeneratedPothole,
                        taken: set<string>)
    ensures NotAssigned(ps + [p], taken) ==
            NotAssigned(ps, taken) +
            (if Free(p, taken) && |NotAssigned(ps, taken)| < NOT_ASSIGNED_LIMIT
             then [PotholeGenerator.MapToSummary(p)] else [])
  {
    var keep := (q: PotholeGenerator.GeneratedPothole) => Free(q, taken);
    var free, free' := Filter(ps, keep), Filter(ps + [p], keep);
    FilterAppend(ps, [p], keep);
    assert Filter([p], keep) == Filter([], keep) + (if keep(p) then [p] else []);
    var summaries, summaries' := Summaries(free), Summaries(free');
    if Free(p, taken) {
      assert free' == free + [p];
      assert summaries' == summaries + [PotholeGenerator.MapToSummary(p)];
      if |summaries| >= NOT_ASSIGNED_LIMIT {
        assert summaries'[..NOT_ASSIGNED_LIMIT] == summaries[..NOT_ASSIGNED_LIMIT];
      }
    } else {
      assert free' == free;
    }
  }

  /** What is offered is never fixed and never selected already. */
  lemma OfferedAreFree(ps: seq<PotholeGenerator.GeneratedPothole>, taken: set<string>)
    ensures forall s :: s in NotAssigned(ps, taken) ==> s.status != "fixed" && IntToString(s.potholeId) !in taken
  {
    var r := NotAssigned(ps, taken);
    forall s | s in r ensures s.status != "fixed" && IntToString(s.potholeId) !in taken {
      var i :| 0 <= i < |r| && r[i] == s;
      var p :| p in ps && Free(p, taken) && r[i] == PotholeGenerator.MapToSummary(p);
    }
  }

  /** A generated pothole selected by a remaining assignment is never
      offered again. */
  lemma SelectedIsNotOffered(ps: seq<PotholeGenerator.GeneratedPothole>, records: map<Id, Assignment>,
                             k: Id, i: nat, p: PotholeGenerator.GeneratedPothole)
    requires k in records && i < |records[k].potholes|
    requires records[k].potholes[i].potholeId == Some(IntToString(p.id))
    ensures PotholeGenerator.MapToSummary(p) !in NotAssigned(ps, Taken(records))
  {
    var s := records[k].potholes[i];
    assert s in records[k].potholes;
    assert IntToString(p.id) in Taken(records);
    OfferedAreFree(ps, Taken(records));
  }

  /** `getAssignments`: delete the stale assignments, then list the open
      and the fixed ones and offer the user's free demo potholes.
      `userPotholes` is what `generateUserPotholes` produced on the way. */
  method GetAssignments(db: Assignments, userId: string, email: string, now: int)
    returns (assignedList: seq<Assignment>, fixedList: seq<Assignment>,
             notAssigned: seq<PotholeGenerator.PotholeSummary>,
             ghost userPotholes: seq<PotholeGenerator.GeneratedPothole>)
    modifies db
    requires db.Valid()
    ensures db.Valid()
    ensures db.ids == Surviving(old(db.ids), old(db.records), Live(now))
    ensures db.records == Retain(old(db.records), Live(now))
    ensures assignedList == Bucket(db.ids, db.records, HasStatus(OPEN_STATUSES))
    ensures fixedList == Bucket(db.ids, db.records, HasStatus(FIXED_STATUSES))
    ensures notAssigned == NotAssigned(userPotholes, Taken(db.records))
    ensures PotholeGenerator.IsTestUser(userId, email) ==> |userPotholes| == 25
    ensures !PotholeGenerator.IsTestUser(userId, email) ==> 10 <= |userPotholes| <= 22
    ensures forall k :: 0 <= k < |userPotholes| ==>
              && userPotholes[k].id == PotholeGenerator.SeedOf(PotholeGenerator.SeedSource(userId, email)) + k * 997
              && PotholeGenerator.Plausible(userPotholes[k], now)
  {
    var ids, records := db.ids, db.records;
    var active := Surviving(ids, records, Live(now));
    var remaining := Retain(records, Live(now));
    RemainingIsListed(ids, records, now);
    db.ids, db.records := active, remaining;
    assignedList := Bucket(active, remaining, HasStatus(OPEN_STATUSES));
    fixedList := Bucket(active, remaining, HasStatus(FIXED_STATUSES));
    var generated := PotholeGenerator.GenerateUserPotholes(userId, email, now);
    userPotholes := generated;
    notAssigned := NotAssigned(generated, Taken(remaining));
  }

  // ---------------------------------------------------------------------------
  // createAssignment

  /** The request body; `potholes` is `None` when it is not an array (an
      absent array defaults to the empty one). */
  datatype CreateRequest = CreateRequest(
    contractorName: Option<string>, contractorContact: Option<string>, notes: Option<string>,
    potholes: Option<seq<PotholePayload>>, summary: Option<string>)

  /** 400 for a blank name, 400 for no selection, 500 when the schema
      rejects the document, 201 with the stored assignment. */
  datatype CreateOutcome =
    | NameRequired
    | SelectionRequired
    | Rejected
    | Created(id: Id, assignment: Assignment)

  predicate SelectionGiven(potholes: Option<seq<PotholePayload>>) {
    potholes.Some? && potholes.value != []
  }

  function Sanitized(ps: seq<PotholePayload>): seq<Selection> {
    seq(|ps|, i requires 0 <= i < |ps| => SanitizePotholePayload(ps[i]))
  }

  function ClusterPoints(ss: seq<Selection>): seq<PotholeGenerator.ClusterPoint> {
    seq(|ss|, i requires 0 <= i < |ss| => PotholeGenerator.ClusterPoint(ss[i].latitude, ss[i].longitude))
  }

  /** The document `createAssignment` stores: trimmed name and contact,
      notes trimmed by the schema, the sanitized selection in order, status
      ASSIGNED, no `fixedAt`, and the client's summary unless it is empty,
      in which case the mean position of the selection. */
  function NewAssignment(request: CreateRequest, createdBy: Id): (a: Assignment)
    requires HasText(request.contractorName) && SelectionGiven(request.potholes)
    ensures a.contractorName == Trim(request.contractorName.value) && a.contractorName != []
    ensures a.status == "ASSIGNED" && a.fixedAt.None? && a.createdBy == createdBy
    ensures |a.potholes| == |request.potholes.value|
    ensures forall i :: 0 <= i < |a.potholes| ==> a.potholes[i] == SanitizePotholePayload(request.potholes.value[i])
    ensures Truthy(request.summary) ==> a.summary == GivenSummary(request.summary.value)
    ensures !Truthy(request.summary) ==> a.summary.ComputedSummary? && a.summary.cluster.Approx?
  {
    var selection := Sanitized(request.potholes.value);
    Assignment(
      Trim(request.contractorName.value),
      if request.contractorContact.Some? then Some(Trim(request.contractorContact.value)) else None,
      if request.notes.Some? then Some(Trim(request.notes.value)) else None,
      selection, "ASSIGNED", createdBy, None,
      if Truthy(request.summary) then GivenSummary(request.summary.value)
      else ComputedSummary(PotholeGenerator.SummarizeCluster(Some(ClusterPoints(selection)))))
  }

  /** A new assignment is stored exactly when every selected pothole passes
      the schema, and it never counts as stale. */
  lemma NewAssignmentIsStored(request: CreateRequest, createdBy: Id, now: int)
    requires HasText(request.contractorName) && SelectionGiven(request.potholes)
    ensures Stored(NewAssignment(request, createdBy)) <==>
              forall i :: 0 <= i < |request.potholes.value| ==> Storable(SanitizePotholePayload(request.potholes.value[i]))
    ensures !IsStale(NewAssignment(request, createdBy), now)
  {
  }

  /** `createAssignment`. */
  method CreateAssignment(db: Assignments, request: CreateRequest, userId: Id, freshId: Id) returns (r: CreateOutcome)
    modifies db
    requires db.Valid() && freshId !in db.records
    ensures db.Valid()
    ensures !HasText(request.contractorName) ==> r == NameRequired
    ensures HasText(request.contractorName) && !SelectionGiven(request.potholes) ==> r == SelectionRequired
    ensures r.Created? <==>
              && HasText(request.contractorName) && SelectionGiven(request.potholes)
              && forall i :: 0 <= i < |request.potholes.value| ==> Storable(SanitizePotholePayload(request.potholes.value[i]))
    ensures r.Created? ==>
              && r.id == freshId && r.assignment == NewAssignment(request, userId)
              && db.ids == [freshId] + old(db.ids) && db.records == old(db.records)[freshId := r.assignment]
    ensures !r.Created? ==> db.ids == old(db.ids) && db.records == old(db.records)
  {
    if request.contractorName.None? || Trim(request.contractorName.value) == [] {
      return NameRequired;
    }
    if request.potholes.None? || |request.potholes.value| == 0 {
      return SelectionRequired;
    }
    var assignment := NewAssignment(request, userId);
    NewAssignmentIsStored(request, userId, 0);
    if !Stored(assignment) {
      return Rejected;
    }
    db.ids, db.records := [freshId] + db.ids, db.records[freshId := assignment];
    r := Created(freshId, assignment);
  }

  // ---------------------------------------------------------------------------
  // updateAssignmentStatus

  /** The record after a move to `status` at time `now`: FIXED stamps
      `fixedAt` and marks every selected pothole fixed; any other status
      keeps both. Nothing else changes. */
  function Transition(a: Assignment, status: string, now: int): (b: Assignment)
    ensures b.status == status
    ensures status == "FIXED" ==> b.fixedAt == Some(now)
    ensures status != "FIXED" ==> b.fixedAt == a.fixedAt && b.potholes == a.potholes
    ensures |b.potholes| == |a.potholes|
    ensures status == "FIXED" ==>
              forall i :: 0 <= i < |a.potholes| ==> b.potholes[i] == a.potholes[i].(status := "fixed")
    ensures b.(status := a.status, fixedAt := a.fixedAt, potholes := a.potholes) == a
  {
    if status == "FIXED" then
      a.(status := status, fixedAt := Some(now),
         potholes := seq(|a.potholes|, i requires 0 <= i < |a.potholes| => a.potholes[i].(status := "fixed")))
    else
      a.(status := status)
  }

  /** A valid move keeps the document acceptable to the schema. */
  lemma TransitionIsStored(a: Assignment, status: string, now: int)
    requires Stored(a) && status in ASSIGNMENT_STATUSES
    ensures Stored(Transition(a, status, now))
  {
    var b := Transition(a, status, now);
    forall i | 0 <= i < |b.potholes| ensures Storable(b.potholes[i]) {
      assert Storable(a.potholes[i]);
    }
  }

  /** An assignment fixed at time `t` is removed by a listing at `now`
      exactly when `t` is more than ten days before `now`; after any other
      move it is never removed. */
  lemma FixedExpiresAfterTenDays(a: Assignment, status: string, t: int, now: int)
    ensures status == "FIXED" ==> (IsStale(Transition(a, status, t), now) <==> t + TEN_DAYS_MS < now)
    ensures status != "FIXED" ==> !IsStale(Transition(a, status, t), now)
  {
  }

  /** 400 for an unknown status, 404 for an unknown id, otherwise the
      updated assignment. */
  datatype UpdateOutcome = InvalidStatus | NotFound | Updated(assignment: Assignment)

  /** `updateAssignmentStatus`. */
  method UpdateAssignmentStatus(db: Assignments, id: Id, status: string, now: int) returns (r: UpdateOutcome)
    modifies db
    requires db.Valid()
    ensures db.Valid() && db.ids == old(db.ids)
    ensures status !in ASSIGNMENT_STATUSES ==> r == InvalidStatus
    ensures status in ASSIGNMENT_STATUSES && id !in old(db.records) ==> r == NotFound
    ensures status in ASSIGNMENT_STATUSES && id in old(db.records) ==>
              && r == Updated(Transition(old(db.records)[id], status, now))
              && db.records == old(db.records)[id := r.assignment]
    ensures !r.Updated? ==> db.records == old(db.records)
  {
    if status !in ASSIGNMENT_STATUSES {
      return InvalidStatus;
    }
    if id !in db.records {
      return NotFound;
    }
    var updated := Transition(db.records[id], status, now);
    TransitionIsStored(db.records[id], status, now);
    db.records := db.records[id := updated];
    r := Updated(updated);
  }
}
