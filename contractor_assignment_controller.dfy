/**
 * Contractor assignments over stored potholes
 * (backend/controllers/contractorAssignment.controller.js over
 * backend/models/ContractorAssignment.js): creation with id validation,
 * listing with the removal of stale fixed assignments, and status moves
 * that cascade "fixed" to the potholes.
 *
 * The `contractorassignments` collection is the class
 * `ContractorAssignments` and the `potholes` collection is `Store.Potholes`;
 * `Date.now()` is the parameter `now` and a created document's id is the
 * parameter `freshId`.
 */
module ContractorAssignmentController {
  import opened Js
  import opened Store

  const TEN_DAYS_MS: int := 10 * 24 * 60 * 60 * 1000
  const CONTRACTOR_STATUSES: seq<string> := ["assigned", "in_progress", "fixed"]
  const OPEN_STATUSES: seq<string> := ["assigned", "in_progress"]
  const FIXED_STATUSES: seq<string> := ["fixed"]

  datatype ContractorAssignment = ContractorAssignment(
    contractorName: string, potholeIds: seq<Id>, status: string, assignedBy: Id, fixedAt: Option<int>)

  /** What the schema accepts: a name, at least one pothole, a known
      status. */
  predicate Stored(a: ContractorAssignment) {
    a.contractorName != [] && a.potholeIds != [] && a.status in CONTRACTOR_STATUSES
  }

  /** The collection, newest first. */
  class ContractorAssignments {
    var ids: seq<Id>
    var records: map<Id, ContractorAssignment>

    ghost predicate Valid()
      reads this
    {
      Lists(ids, records) && forall k :: k in records ==> Stored(records[k])
    }

    constructor(ids: seq<Id>, records: map<Id, ContractorAssignment>)
      requires Lists(ids, records) && forall k :: k in records ==> Stored(records[k])
      ensures Valid() && this.ids == ids && this.records == records
    {
      this.ids := ids;
      this.records := records;
    }
  }

  // ---------------------------------------------------------------------------
  // createContractorAssignment

  predicate IsHexDigit(c: char) {
    '0' <= c <= '9' || 'a' <= c <= 'f' || 'A' <= c <= 'F'
  }

  /** `ObjectId.isValid(id)` for a string: 24 hexadecimal digits. */
  predicate IsObjectIdText(s: string) {
    |s| == 24 && forall i :: 0 <= i < |s| ==> IsHexDigit(s[i])
  }

  /** `new ObjectId(s).toString()`: the canonical lower-case form. */
  function LowerAll(xs: seq<string>): (r: seq<string>)
    ensures |r| == |xs| && forall i :: 0 <= i < |xs| ==> r[i] == ToLower(xs[i])
  {
    seq(|xs|, i requires 0 <= i < |xs| => ToLower(xs[i]))
  }

  /** The valid ids among the request's, in request order and in canonical
      form; every valid id of the request is among them. */
  function ValidIds(raw: seq<string>): (r: seq<Id>)
    ensures |r| <= |raw|
    ensures forall i :: 0 <= i < |r| ==> IsObjectIdText(r[i]) && r[i] == ToLower(r[i])
    ensures forall s :: s in raw && IsObjectIdText(s) ==> ToLower(s) in r
  {
    var kept := Filter(raw, IsObjectIdText);
    var r := LowerAll(kept);
    forall i | 0 <= i < |r| ensures IsObjectIdText(r[i]) && r[i] == ToLower(r[i]) {
      assert kept[i] in kept;
    }
    forall s | s in raw && IsObjectIdText(s) ensures ToLower(s) in r {
      var i :| 0 <= i < |kept| && kept[i] == s;
      assert r[i] == ToLower(s);
    }
    r
  }

  /** Validation works entry by entry: the valid ids of a request are
      those of its first part followed by those of its second. */
  lemma ValidIdsAppend(a: seq<string>, b: seq<string>)
    ensures ValidIds(a + b) == ValidIds(a) + ValidIds(b)
  {
    FilterAppend(a, b, IsObjectIdText);
    LowerAllAppend(Filter(a, IsObjectIdText), Filter(b, IsObjectIdText));
  }

  lemma LowerAllAppend(x: seq<string>, y: seq<string>)
    ensures LowerAll(x + y) == LowerAll(x) + LowerAll(y)
  {
  }

  /** A single entry is kept, lower-cased, exactly when it is a valid id. */
  lemma ValidIdsSingle(s: string)
    ensures ValidIds([s]) == if IsObjectIdText(s) then [ToLower(s)] else []
  {
    assert [s][..0] == [];
  }

  /** Two valid entries of a request that name the same id, in the same or
      in different letter case, leave a repetition among the valid ids, so
      the request is refused with 400. */
  lemma RepeatedIdRefused(raw: seq<string>, i: nat, j: nat)
    requires i < j < |raw|
    requires IsObjectIdText(raw[i]) && IsObjectIdText(raw[j]) && ToLower(raw[i]) == ToLower(raw[j])
    ensures ValidIds(raw) != [] && !Distinct(ValidIds(raw))
  {
    var before, middle, after := raw[..i], raw[i + 1..j], raw[j + 1..];
    assert raw == before + [raw[i]] + middle + [raw[j]] + after;
    ValidIdsAppend(before + [raw[i]] + middle + [raw[j]], after);
    ValidIdsAppend(before + [raw[i]] + middle, [raw[j]]);
    ValidIdsAppend(before + [raw[i]], middle);
    ValidIdsAppend(before, [raw[i]]);
    ValidIdsSingle(raw[i]);
    ValidIdsSingle(raw[j]);
    var r, p, m := ValidIds(raw), ValidIds(before), ValidIds(middle);
    assert r == p + [ToLower(raw[i])] + m + [ToLower(raw[j])] + ValidIds(after);
    assert r[|p|] == r[|p| + 1 + |m|];
  }

  /** `existingPotholes.length`: the number of stored potholes named by
      `ids`, each counted once however often it is named. */
  function FoundCount(ids: seq<Id>, potholes: map<Id, Pothole>): nat {
    |set k | k in ids && k in potholes|
  }

  /** The count matches the number of ids exactly when every id names a
      stored pothole and no id repeats: a repeated id is refused like an
      unknown one. */
  lemma FoundAllIff(ids: seq<Id>, potholes: map<Id, Pothole>)
    ensures FoundCount(ids, potholes) == |ids| <==> Distinct(ids) && forall k :: k in ids ==> k in potholes
  {
    var found := set k | k in ids && k in potholes;
    var named := set k | k in ids;
    ElementCount(ids);
    assert found <= named;
    if forall k :: k in ids ==> k in potholes {
      assert found == named;
    } else {
      var missing :| missing in ids && missing !in potholes;
      SubsetMissingSmaller(found, named, missing);
    }
  }

  /** The request body; `potholeIds` is `None` when it is not an array.
      Array elements that are not strings are not modelled. */
  datatype CreateRequest = CreateRequest(contractorName: Option<string>, potholeIds: Option<seq<string>>)

  /** 400 for a blank name, for no ids, for no valid id, for an id without
      a distinct stored pothole; otherwise 201. */
  datatype CreateOutcome =
    | NameRequired
    | SelectionRequired
    | NoValidIds
    | UnknownPotholes
    | Created(id: Id, assignment: ContractorAssignment)

  predicate SelectionGiven(ids: Option<seq<string>>) {
    ids.Some? && ids.value != []
  }

  /** `createContractorAssignment`. */
  method CreateContractorAssignment(db: ContractorAssignments, potholes: Potholes, request: CreateRequest,
                                    userId: Id, freshId: Id) returns (r: CreateOutcome)
    modifies db
    requires db.Valid() && potholes.Valid() && freshId !in db.records
    ensures db.Valid()
    ensures !HasText(request.contractorName) ==> r == NameRequired
    ensures HasText(request.contractorName) && !SelectionGiven(request.potholeIds) ==> r == SelectionRequired
    ensures HasText(request.contractorName) && SelectionGiven(request.potholeIds) ==>
              (ValidIds(request.potholeIds.value) == [] ==> r == NoValidIds)
    ensures HasText(request.contractorName) && SelectionGiven(request.potholeIds) ==>
            ValidIds(request.potholeIds.value) != [] ==>
              (r.Created? <==> Distinct(ValidIds(request.potholeIds.value)) &&
                               forall k :: k in ValidIds(request.potholeIds.value) ==> k in potholes.records)
    ensures r.Created? ==>
              && r.id == freshId
              && r.assignment == ContractorAssignment(Trim(request.contractorName.value),
                                   ValidIds(request.potholeIds.value), "assigned", userId, None)
              && db.ids == [freshId] + old(db.ids) && db.records == old(db.records)[freshId := r.assignment]
    ensures !r.Created? ==> db.ids == old(db.ids) && db.records == old(db.records)
  {
    if request.contractorName.None? || Trim(request.contractorName.value) == [] {
      return NameRequired;
    }
    if request.potholeIds.None? || |request.potholeIds.value| == 0 {
      return SelectionRequired;
    }
    var valid := ValidIds(request.potholeIds.value);
    if |valid| == 0 {
      return NoValidIds;
    }
    var found := |set k | k in valid && k in potholes.records|;
    FoundAllIff(valid, potholes.records);
    if found != |valid| {
      return UnknownPotholes;
    }
    var assignment := ContractorAssignment(Trim(request.contractorName.value), valid, "assigned", userId, None);
    db.ids, db.records := [freshId] + db.ids, db.records[freshId := assignment];
    r := Created(freshId, assignment);
  }

  // ---------------------------------------------------------------------------
  // getContractorAssignments

  /** A fixed assignment whose `fixedAt` lies strictly before the cutoff ten
      days before `now`. */
  predicate IsStale(a: ContractorAssignment, now: int) {
    a.status == "fixed" && a.fixedAt.Some? && a.fixedAt.value < now - TEN_DAYS_MS
  }

  /** What the clean-up keeps: the assignments that are not stale. */
  function Live(now: int): ContractorAssignment -> bool {
    (a: ContractorAssignment) => !IsStale(a, now)
  }

  /** Membership of a listing bucket. */
  function HasStatus(statuses: seq<string>): ContractorAssignment -> bool {
    (a: ContractorAssignment) => a.status in statuses
  }

  /** Dropping the stale assignments from a valid collection leaves a
      valid one: the surviving ids list exactly the remaining documents,
      none of them stale, all still acceptable to the schema. */
  lemma RemainingIsListed(ids: seq<Id>, records: map<Id, ContractorAssignment>, now: int)
    requires Lists(ids, records) && forall k :: k in records ==> Stored(records[k])
    ensures Lists(Surviving(ids, records, Live(now)), Retain(records, Live(now)))
    ensures forall k :: k in Retain(records, Live(now)) ==>
              Stored(Retain(records, Live(now))[k]) && !IsStale(Retain(records, Live(now))[k], now)
  {
    RetainIsListed(ids, records, Live(now));
  }

  /** After the clean-up, `assigned` and `fixed` are disjoint, hold no stale
      assignment and between them list every remaining one. */
  lemma BucketsPartitionActive(ids: seq<Id>, records: map<Id, ContractorAssignment>, now: int)
    requires forall k :: k in records ==> Stored(records[k])
    requires forall k :: k in ids ==> k in records && !IsStale(records[k], now)
    ensures forall a :: a in Bucket(ids, records, HasStatus(OPEN_STATUSES)) ==>
              a !in Bucket(ids, records, HasStatus(FIXED_STATUSES))
    ensures forall a :: a in Bucket(ids, records, HasStatus(OPEN_STATUSES)) + Bucket(ids, records, HasStatus(FIXED_STATUSES)) ==>
              !IsStale(a, now)
    ensures forall k :: k in ids ==>
              records[k] in Bucket(ids, records, HasStatus(OPEN_STATUSES)) ||
              records[k] in Bucket(ids, records, HasStatus(FIXED_STATUSES))
  {
    var open, fixed := Bucket(ids, records, HasStatus(OPEN_STATUSES)), Bucket(ids, records, HasStatus(FIXED_STATUSES));
    forall a | a in open + fixed ensures !IsStale(a, now) {
      var k :| k in ids && records[k] == a;
    }
    forall k | k in ids ensures records[k] in open || records[k] in fixed {
      assert records[k].status in CONTRACTOR_STATUSES;
    }
  }

  /** `assignedPotholeIds`: the potholes named by the given assignments. */
  function Referenced(records: map<Id, ContractorAssignment>): set<Id> {
    set k, p | k in records && p in records[k].potholeIds :: p
  }

  /** `fixedPotholeIds`: the potholes named by the fixed ones among them. */
  function ReferencedByFixed(records: map<Id, ContractorAssignment>): set<Id> {
    set k, p | k in records && records[k].status == "fixed" && p in records[k].potholeIds :: p
  }

  /** The second exclusion set is contained in the first, so it never
      excludes anything more. */
  lemma FixedReferencesAreReferenced(records: map<Id, ContractorAssignment>)
    ensures ReferencedByFixed(records) <= Referenced(records)
  {
    forall p | p in ReferencedByFixed(records) ensures p in Referenced(records) {
      var k :| k in records && records[k].status == "fixed" && p in records[k].potholeIds;
    }
  }

  /** One `notAssigned` entry. */
  datatype OpenPothole = OpenPothole(
    id: Id, latitude: Option<Num>, longitude: Option<Num>, severity: string, status: string, confidence: real)

  /** The entry for a stored pothole: severity defaults to "low", status to
      "open", confidence to 0. */
  function View(id: Id, p: Pothole): (v: OpenPothole)
    ensures v.id == id && v.latitude == p.latitude && v.longitude == p.longitude && v.confidence == p.confidence
    ensures v.severity == (if p.severity == [] then "low" else p.severity)
    ensures v.status == (if p.status == [] then "open" else p.status)
  {
    OpenPothole(id, p.latitude, p.longitude,
                if p.severity == [] then "low" else p.severity,
                if p.status == [] then "open" else p.status,
                p.confidence)
  }

  /** A pothole is offered when it is not fixed and no remaining assignment
      names it. */
  predicate Unassigned(id: Id, p: Pothole, records: map<Id, ContractorAssignment>) {
    p.status != "fixed" && id !in Referenced(records) && id !in ReferencedByFixed(records)
  }

  /** `notAssigned`, in pothole listing order: a listed pothole appears
      exactly when it is unassigned. */
  function NotAssigned(ids: seq<Id>, potholes: map<Id, Pothole>, records: map<Id, ContractorAssignment>): (r: seq<OpenPothole>)
    requires forall k :: k in ids ==> k in potholes
    ensures |r| <= |ids|
    ensures forall k :: k in ids ==> (View(k, potholes[k]) in r <==> Unassigned(k, potholes[k], records))
    ensures forall v :: v in r ==> v.status != "fixed" && v.id in ids && v.id !in Referenced(records)
  {
    var offered := Filter(ids, k => k in potholes && Unassigned(k, potholes[k], records));
    var r := seq(|offered|, i requires 0 <= i < |offered| => View(offered[i], potholes[offered[i]]));
    forall v | v in r ensures v.status != "fixed" && v.id in ids && v.id !in Referenced(records)
                              && Unassigned(v.id, potholes[v.id], records) && v == View(v.id, potholes[v.id])
    {
      var i :| 0 <= i < |r| && r[i] == v;
      assert offered[i] in offered;
    }
    forall k | k in ids && Unassigned(k, potholes[k], records) ensures View(k, potholes[k]) in r {
      var i :| 0 <= i < |offered| && offered[i] == k;
      assert r[i] == View(k, potholes[k]);
    }
    r
  }

  /** `getContractorAssignments`: delete the stale assignments, then list
      the open and the fixed ones and the unassigned potholes. */
  method GetContractorAssignments(db: ContractorAssignments, potholes: Potholes, now: int)
    returns (assignedList: seq<ContractorAssignment>, fixedList: seq<ContractorAssignment>, notAssigned: seq<OpenPothole>)
    modifies db
    requires db.Valid() && potholes.Valid()
    ensures db.Valid()
    ensures db.ids == Surviving(old(db.ids), old(db.records), Live(now))
    ensures db.records == Retain(old(db.records), Live(now))
    ensures assignedList == Bucket(db.ids, db.records, HasStatus(OPEN_STATUSES))
    ensures fixedList == Bucket(db.ids, db.records, HasStatus(FIXED_STATUSES))
    ensures notAssigned == NotAssigned(potholes.ids, potholes.records, db.records)
  {
    var ids, records := db.ids, db.records;
    var active := Surviving(ids, records, Live(now));
    var remaining := Retain(records, Live(now));
    RemainingIsListed(ids, records, now);
    db.ids, db.records := active, remaining;
    assignedList := Bucket(active, remaining, HasStatus(OPEN_STATUSES));
    fixedList := Bucket(active, remaining, HasStatus(FIXED_STATUSES));
    notAssigned := NotAssigned(potholes.ids, potholes.records, remaining);
  }

  // ---------------------------------------------------------------------------
  // updateContractorAssignmentStatus

  /** The record after a move to `status` at time `now`: only "fixed"
      stamps `fixedAt`; nothing else changes. */
  function Transition(a: ContractorAssignment, status: string, now: int): (b: ContractorAssignment)
    ensures b.status == status
    ensures b.fixedAt == (if status == "fixed" then Some(now) else a.fixedAt)
    ensures b.(status := a.status, fixedAt := a.fixedAt) == a
  {
    if status == "fixed" then a.(status := status, fixedAt := Some(now)) else a.(status := status)
  }

  /** An assignment fixed at time `t` is removed by a listing at `now`
      exactly when `t` is more than ten days before `now`; after any other
      move it is never removed, whatever its old `fixedAt`. */
  lemma FixedExpiresAfterTenDays(a: ContractorAssignment, status: string, t: int, now: int)
    ensures status == "fixed" ==> (IsStale(Transition(a, status, t), now) <==> t + TEN_DAYS_MS < now)
    ensures status != "fixed" ==> !IsStale(Transition(a, status, t), now)
  {
  }

  /** A pothole whose status is "fixed" is never offered as unassigned,
      whatever assignments remain. */
  lemma FixedPotholesAreNotOffered(ids: seq<Id>, potholes: map<Id, Pothole>,
                                   records: map<Id, ContractorAssignment>, k: Id)
    requires forall j :: j in ids ==> j in potholes
    requires k in ids && potholes[k].status == "fixed"
    ensures View(k, potholes[k]) !in NotAssigned(ids, potholes, records)
  {
  }

  /** After a move of `assignment` to "fixed" has marked its potholes
      fixed, no later listing offers any of them as unassigned, whatever
      assignments then remain: also once the fixed assignment has expired
      and been deleted. */
  lemma FixingKeepsPotholesOffLists(ids: seq<Id>, before: map<Id, Pothole>, after: map<Id, Pothole>,
                                   assignment: ContractorAssignment, records: map<Id, ContractorAssignment>)
    requires forall k :: k in ids ==> k in before
    requires after.Keys == before.Keys
    requires forall k :: k in after ==>
               after[k] == if k in assignment.potholeIds then before[k].(status := "fixed") else before[k]
    ensures forall k :: k in ids && k in assignment.potholeIds ==>
              View(k, after[k]) !in NotAssigned(ids, after, records)
  {
    forall k | k in ids && k in assignment.potholeIds
      ensures View(k, after[k]) !in NotAssigned(ids, after, records)
    {
      FixedPotholesAreNotOffered(ids, after, records, k);
    }
  }

  datatype UpdateOutcome = InvalidStatus | NotFound | Updated(assignment: ContractorAssignment)

  /** `updateContractorAssignmentStatus`: 400 for an unknown status, 404
      for an unknown id; a move to "fixed" also marks the assignment's
      potholes fixed. */
  method UpdateContractorAssignmentStatus(db: ContractorAssignments, potholes: Potholes, id: Id, status: string, now: int)
    returns (r: UpdateOutcome)
    modifies db, potholes
    requires db.Valid() && potholes.Valid()
    ensures db.Valid() && db.ids == old(db.ids)
    ensures potholes.Valid() && potholes.ids == old(potholes.ids) && potholes.records.Keys == old(potholes.records).Keys
    ensures status !in CONTRACTOR_STATUSES ==> r == InvalidStatus
    ensures status in CONTRACTOR_STATUSES && id !in old(db.records) ==> r == NotFound
    ensures status in CONTRACTOR_STATUSES && id in old(db.records) ==>
              && r == Updated(Transition(old(db.records)[id], status, now))
              && db.records == old(db.records)[id := r.assignment]
    ensures !r.Updated? ==> db.records == old(db.records)
    ensures !(r.Updated? && status == "fixed") ==> potholes.records == old(potholes.records)
    ensures r.Updated? && status == "fixed" ==>
              forall k :: k in potholes.records ==>
                potholes.records[k] == if k in r.assignment.potholeIds then old(potholes.records)[k].(status := "fixed")
                                       else old(potholes.records)[k]
  {
    if status !in CONTRACTOR_STATUSES {
      return InvalidStatus;
    }
    if id !in db.records {
      return NotFound;
    }
    var updated := Transition(db.records[id], status, now);
    if status == "fixed" {
      potholes.SetStatus(updated.potholeIds, "fixed");
    }
    db.records := db.records[id := updated];
    r := Updated(updated);
  }
}
