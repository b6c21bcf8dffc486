/**
 * In-memory stand-ins for the backend's MongoDB collections. A collection
 * is a map from document id to document together with the order in which
 * `find().sort({ createdAt: -1 })` lists it: newest first, every id once.
 */
module Store {
  import opened Js

  /** A document id as its hexadecimal string form (`_id.toString()`). */
  type Id = string

  /** No element occurs twice. */
  predicate Distinct<T(==)>(xs: seq<T>) {
    forall i, j :: 0 <= i < j < |xs| ==> xs[i] != xs[j]
  }

  /** `ids` lists exactly the keys of `m`, each once. */
  ghost predicate Lists<V>(ids: seq<Id>, m: map<Id, V>) {
    Distinct(ids) && (forall k :: k in m <==> k in ids)
  }

  /** `xs.filter(keep)`. */
  function Filter<T(!new)>(xs: seq<T>, keep: T -> bool): (r: seq<T>)
    ensures |r| <= |xs|
    ensures forall x :: x in r <==> x in xs && keep(x)
  {
    if xs == [] then []
    else
      var init, last := xs[..|xs| - 1], xs[|xs| - 1];
      assert xs == init + [last];
      Filter(init, keep) + (if keep(last) then [last] else [])
  }

  /** Filtering works piecewise, so it keeps the relative order of what it
      keeps. */
  lemma {:induction false} FilterAppend<T(!new)>(a: seq<T>, b: seq<T>, keep: T -> bool)
    ensures Filter(a + b, keep) == Filter(a, keep) + Filter(b, keep)
    decreases |b|
  {
    if b == [] {
      assert a + b == a;
    } else {
      var init := b[..|b| - 1];
      assert (a + b)[..|a + b| - 1] == a + init;
      FilterAppend(a, init, keep);
    }
  }

  /** A filter that rejects nothing is the identity. */
  lemma {:induction false} FilterKeepsAll<T(!new)>(xs: seq<T>, keep: T -> bool)
    requires forall x :: x in xs ==> keep(x)
    ensures Filter(xs, keep) == xs
  {
    if xs != [] {
      var init := xs[..|xs| - 1];
      assert xs == init + [xs[|xs| - 1]];
      FilterKeepsAll(init, keep);
    }
  }

  /** Filtering a list without repetitions gives one without repetitions. */
  lemma {:induction false} FilterDistinct<T(!new)>(xs: seq<T>, keep: T -> bool)
    ensures Distinct(xs) ==> Distinct(Filter(xs, keep))
  {
    if xs != [] && Distinct(xs) {
      var init, last := xs[..|xs| - 1], xs[|xs| - 1];
      assert xs == init + [last];
      FilterDistinct(init, keep);
      assert last !in init;
    }
  }

  /** Appending the image of the next source element extends a list of
      images element by element. */
  lemma MapSnoc<A, B>(images: seq<B>, source: seq<A>, f: A -> B, next: B)
    requires |images| < |source| && next == f(source[|images|])
    requires forall j :: 0 <= j < |images| ==> images[j] == f(source[j])
    ensures forall j :: 0 <= j < |images| + 1 ==> (images + [next])[j] == f(source[j])
  {
  }

  /** A subset that misses an element of the larger set is strictly
      smaller. */
  lemma SubsetMissingSmaller<T>(a: set<T>, b: set<T>, x: T)
    requires a <= b && x in b && x !in a
    ensures |a| < |b|
  {
    var rest := b - {x};
    assert a <= rest;
    assert |rest| == |rest - a| + |a|  by { assert rest * a == a; }
    assert |b| == |rest| + 1;
  }

  /** The set of elements of a list is at most as large as the list, and as
      large exactly when no element repeats. */
  lemma {:induction false} ElementCount<T(!new)>(xs: seq<T>)
    ensures |set x | x in xs| <= |xs|
    ensures |set x | x in xs| == |xs| <==> Distinct(xs)
  {
    if xs != [] {
      var init, last := xs[..|xs| - 1], xs[|xs| - 1];
      assert xs == init + [last];
      ElementCount(init);
      var before := set x | x in init;
      assert (set x | x in xs) == before + {last};
      if last in init {
        assert before + {last} == before;
        var i :| 0 <= i < |init| && init[i] == last;
        assert xs[i] == xs[|xs| - 1];
      } else {
        assert |before + {last}| == |before| + 1;
        if Distinct(init) {
          forall i, j | 0 <= i < j < |xs| ensures xs[i] != xs[j] {
            if j == |xs| - 1 {
              assert xs[i] in init;
            } else {
              assert xs[i] == init[i] && xs[j] == init[j];
            }
          }
        } else {
          var i, j :| 0 <= i < j < |init| && init[i] == init[j];
          assert xs[i] == xs[j];
        }
      }
    }
  }

  // ---------------------------------------------------------------------------
  // Listings filtered by a condition on the documents

  /** The listed ids whose document passes `keep`, in listing order. */
  function Surviving<V>(ids: seq<Id>, records: map<Id, V>, keep: V -> bool): (r: seq<Id>)
    ensures forall k :: k in r <==> k in ids && k in records && keep(records[k])
    ensures Distinct(ids) ==> Distinct(r)
  {
    var pass := k => k in records && keep(records[k]);
    FilterDistinct(ids, pass);
    Filter(ids, pass)
  }

  /** `deleteMany` of every document that fails `keep`: the collection
      keeps exactly the passing documents, unchanged. */
  function Retain<V>(records: map<Id, V>, keep: V -> bool): (m: map<Id, V>)
    ensures forall k :: k in m <==> k in records && keep(records[k])
    ensures forall k :: k in m ==> m[k] == records[k]
  {
    map k | k in records && keep(records[k]) :: records[k]
  }

  /** Deleting the failing documents leaves a collection whose listing is
      the surviving ids. */
  lemma RetainIsListed<V>(ids: seq<Id>, records: map<Id, V>, keep: V -> bool)
    requires Lists(ids, records)
    ensures Lists(Surviving(ids, records, keep), Retain(records, keep))
  {
  }

  /** The documents of `ids`, in that order. */
  function Documents<V>(ids: seq<Id>, records: map<Id, V>): (r: seq<V>)
    requires forall k :: k in ids ==> k in records
    ensures |r| == |ids| && forall i :: 0 <= i < |ids| ==> r[i] == records[ids[i]]
  {
    seq(|ids|, i requires 0 <= i < |ids| => records[ids[i]])
  }

  /** A document is listed exactly when one of the ids names it. */
  lemma DocumentsMembership<V(!new)>(ids: seq<Id>, records: map<Id, V>)
    requires forall k :: k in ids ==> k in records
    ensures forall a :: a in Documents(ids, records) <==> exists k :: k in ids && records[k] == a
  {
    var r := Documents(ids, records);
    forall a | a in r ensures exists k :: k in ids && records[k] == a {
      var i :| 0 <= i < |r| && r[i] == a;
      assert ids[i] in ids;
    }
    forall k | k in ids ensures records[k] in r {
      var i :| 0 <= i < |ids| && ids[i] == k;
      assert r[i] == records[k];
    }
  }

  /** `docs.filter(keep)` over the listed documents: exactly the listed
      documents that pass, each drawn from the listing. */
  function Bucket<V(!new)>(ids: seq<Id>, records: map<Id, V>, keep: V -> bool): (r: seq<V>)
    requires forall k :: k in ids ==> k in records
    ensures forall a :: a in r ==> keep(a) && exists k :: k in ids && records[k] == a
    ensures forall k :: k in ids && keep(records[k]) ==> records[k] in r
  {
    var selected := Surviving(ids, records, keep);
    DocumentsMembership(selected, records);
    Documents(selected, records)
  }

  /** A stored pothole (backend/models/Pothole.js). Absent string fields are
      the empty string and an absent confidence is 0, which the controllers'
      `||` defaults treat alike. */
  datatype Pothole = Pothole(
    videoId: string,
    severity: string,
    status: string,
    latitude: Option<Num>,
    longitude: Option<Num>,
    previewImage: Option<string>,
    confidence: real,
    assignedContractor: Option<string>,
    gpsSource: string)

  /** The `potholes` collection. */
  class Potholes {
    var ids: seq<Id>
    var records: map<Id, Pothole>

    ghost predicate Valid()
      reads this
    {
      Lists(ids, records)
    }

    constructor(ids: seq<Id>, records: map<Id, Pothole>)
      requires Lists(ids, records)
      ensures Valid() && this.ids == ids && this.records == records
    {
      this.ids := ids;
      this.records := records;
    }

    /** The documents in listing order. */
    function Listed(): (r: seq<Pothole>)
      reads this
      requires Valid()
      ensures |r| == |ids|
      ensures forall i :: 0 <= i < |ids| ==> r[i] == records[ids[i]]
    {
      seq(|ids|, i reads this requires 0 <= i < |ids| && Valid() => records[ids[i]])
    }

    /** `updateMany({ _id: { $in: targets } }, { status })`: every listed
        pothole whose id is among `targets` takes the new status; ids that
        match no pothole are ignored. */
    method SetStatus(targets: seq<Id>, status: string)
      modifies this
      requires Valid()
      ensures Valid() && ids == old(ids)
      ensures records.Keys == old(records).Keys
      ensures forall k :: k in records ==>
                records[k] == if k in targets then old(records)[k].(status := status) else old(records)[k]
    {
      var updated := map k | k in records :: if k in targets then records[k].(status := status) else records[k];
      records := updated;
    }
  }

  /** A stored user (the fields the controllers read). The two flags may be
      absent from the document. */
  datatype User = User(name: string, email: string, isAdmin: Option<bool>, isGovernmentAuthorized: Option<bool>)

  /** A flag read with `||`: an absent flag is false. */
  function Flag(x: Option<bool>): (b: bool)
    ensures b <==> x == Some(true)
  {
    x.Some? && x.value
  }

  /** The `users` collection. */
  class Users {
    var ids: seq<Id>
    var records: map<Id, User>

    ghost predicate Valid()
      reads this
    {
      Lists(ids, records)
    }

    constructor(ids: seq<Id>, records: map<Id, User>)
      requires Lists(ids, records)
      ensures Valid() && this.ids == ids && this.records == records
    {
      this.ids := ids;
      this.records := records;
    }

    /** Set `isGovernmentAuthorized` of user `id`, if there is one. */
    method SetGovernmentAuthorized(id: Id, value: bool)
      modifies this
      requires Valid()
      ensures Valid() && ids == old(ids)
      ensures id in old(records) ==>
                records == old(records)[id := old(records)[id].(isGovernmentAuthorized := Some(value))]
      ensures id !in old(records) ==> records == old(records)
    {
      if id in records {
        records := records[id := records[id].(isGovernmentAuthorized := Some(value))];
      }
    }
  }
}
