/**
 * Cross-frame deduplication of the analysis server (ml-server/main.py,
 * `cluster_detections`): a single greedy pass that puts each detection into the
 * first cluster, in creation order, whose ANCHOR (the detection that opened
 * it) overlaps it by more than the threshold, and otherwise opens a new
 * cluster; then one highest-confidence representative per cluster.
 */
module IouClusterer {
  import opened BoxGeometry

  const IOU_THRESHOLD: real := 0.3

  /** A cluster: the detection that opened it and those that joined it later,
      in arrival order. `cluster[0]` of the source is `anchor`. */
  datatype Cluster = Cluster(anchor: Detection, joined: seq<Detection>)

  function Members(c: Cluster): (m: seq<Detection>)
    ensures |m| == |c.joined| + 1 && m[0] == c.anchor
  {
    [c.anchor] + c.joined
  }

  /** Position of the first cluster whose anchor overlaps `d` by more than
      `threshold`, or `|clusters|` when there is none. */
  function FirstMatch(clusters: seq<Cluster>, d: Detection, threshold: real): (k: nat)
    ensures k <= |clusters|
    ensures forall j :: 0 <= j < k ==> Iou(d, clusters[j].anchor) <= threshold
    ensures k < |clusters| ==> Iou(d, clusters[k].anchor) > threshold
  {
    if clusters == [] then 0
    else if Iou(d, clusters[0].anchor) > threshold then 0
    else 1 + FirstMatch(clusters[1..], d, threshold)
  }

  /** One step of the greedy pass: join the first matching cluster, or open a
      new one with `d` as its anchor. */
  function Place(clusters: seq<Cluster>, d: Detection, threshold: real): seq<Cluster> {
    var k := FirstMatch(clusters, d, threshold);
    if k < |clusters| then clusters[k := Cluster(clusters[k].anchor, clusters[k].joined + [d])]
    else clusters + [Cluster(d, [])]
  }

  /** The clusters after the greedy pass over `detections` in order. */
  function Clusters(detections: seq<Detection>, threshold: real): seq<Cluster> {
    if detections == [] then []
    else Place(Clusters(detections[..|detections| - 1], threshold), detections[|detections| - 1], threshold)
  }

  /** Position of the highest-confidence member; the earliest one on ties,
      as Python's `max` keeps the first maximal element. */
  function BestIndex(c: seq<Detection>): (i: nat)
    requires c != []
    ensures i < |c|
    ensures forall j :: 0 <= j < |c| ==> c[j].confidence <= c[i].confidence
    ensures forall j :: 0 <= j < i ==> c[j].confidence < c[i].confidence
  {
    if |c| == 1 then 0
    else
      var i := BestIndex(c[..|c| - 1]);
      if c[|c| - 1].confidence > c[i].confidence then |c| - 1 else i
  }

  function Representative(c: Cluster): Detection {
    Members(c)[BestIndex(Members(c))]
  }

  /** One representative per cluster, in cluster-creation order. */
  function Representatives(clusters: seq<Cluster>): (r: seq<Detection>)
    ensures |r| == |clusters|
    ensures forall k :: 0 <= k < |r| ==> r[k] in Members(clusters[k])
    ensures forall k, m :: 0 <= k < |r| && m in Members(clusters[k]) ==> m.confidence <= r[k].confidence
  {
    seq(|clusters|, k requires 0 <= k < |clusters| => Representative(clusters[k]))
  }

  /** `cluster_detections`: the imperative greedy pass of the source, with
      its `placed` flag and early `break`. */
  method ClusterDetections(detections: seq<Detection>, iouThreshold: real) returns (unique: seq<Detection>)
    ensures unique == Representatives(Clusters(detections, iouThreshold))
    ensures |unique| <= |detections|
  {
    var clusters: seq<Cluster> := [];
    for i := 0 to |detections|
      invariant clusters == Clusters(detections[..i], iouThreshold)
    {
      var det := detections[i];
      ghost var before := clusters;
      assert detections[..i + 1][..i] == detections[..i];
      var placed := false;
      var j := 0;
      while j < |clusters|
        invariant j <= |clusters| && clusters == before && !placed
        invariant forall m :: 0 <= m < j ==> Iou(det, clusters[m].anchor) <= iouThreshold
      {
        if Iou(det, clusters[j].anchor) > iouThreshold {
          clusters := clusters[j := Cluster(clusters[j].anchor, clusters[j].joined + [det])];
          placed := true;
          break;
        }
        j := j + 1;
      }
      if !placed {
        clusters := clusters + [Cluster(det, [])];
      }
      assert clusters == Place(before, det, iouThreshold);
    }
    assert detections[..|detections|] == detections;
    unique := Representatives(clusters);
    ClusterCount(detections, iouThreshold);
  }

  // ---------------------------------------------------------------------------
  // Properties of the greedy pass

  /** There are never more clusters than detections, and at least one when
      there is any detection. */
  lemma {:induction false} ClusterCount(detections: seq<Detection>, threshold: real)
    ensures |Clusters(detections, threshold)| <= |detections|
    ensures detections != [] ==> |Clusters(detections, threshold)| >= 1
  {
    if detections != [] {
      ClusterCount(detections[..|detections| - 1], threshold);
    }
  }

  /** The multiset of all members of all clusters. */
  function Pooled(clusters: seq<Cluster>): multiset<Detection> {
    if clusters == [] then multiset{} else multiset(Members(clusters[0])) + Pooled(clusters[1..])
  }

  lemma {:induction false} PooledAppend(clusters: seq<Cluster>, c: Cluster)
    ensures Pooled(clusters + [c]) == Pooled(clusters) + multiset(Members(c))
  {
    if clusters != [] {
      assert (clusters + [c])[1..] == clusters[1..] + [c];
      PooledAppend(clusters[1..], c);
    }
  }

  lemma {:induction false} PooledJoin(clusters: seq<Cluster>, k: nat, d: Detection)
    requires k < |clusters|
    ensures Pooled(clusters[k := Cluster(clusters[k].anchor, clusters[k].joined + [d])])
         == Pooled(clusters) + multiset{d}
  {
    var c' := Cluster(clusters[k].anchor, clusters[k].joined + [d]);
    if k == 0 {
      PooledJoinFirst(clusters, d);
    } else {
      var r, tail := clusters[k := c'], clusters[1..];
      assert tail[k - 1] == clusters[k];
      assert r[1..] == tail[k - 1 := c'];
      assert r[0] == clusters[0];
      PooledJoin(tail, k - 1, d);
      PooledCons(r);
      PooledCons(clusters);
      Regroup(multiset(Members(clusters[0])), Pooled(tail), Pooled(r[1..]), Pooled(r), d);
    }
  }

  lemma Regroup<T>(head: multiset<T>, rest: multiset<T>, rest': multiset<T>, all': multiset<T>, d: T)
    requires rest' == rest + multiset{d} && all' == head + rest'
    ensures all' == (head + rest) + multiset{d}
  {
  }

  lemma PooledCons(clusters: seq<Cluster>)
    requires clusters != []
    ensures Pooled(clusters) == multiset(Members(clusters[0])) + Pooled(clusters[1..])
  {
  }

  lemma PooledJoinFirst(clusters: seq<Cluster>, d: Detection)
    requires clusters != []
    ensures Pooled(clusters[0 := Cluster(clusters[0].anchor, clusters[0].joined + [d])])
         == Pooled(clusters) + multiset{d}
  {
    var c' := Cluster(clusters[0].anchor, clusters[0].joined + [d]);
    assert Members(c') == Members(clusters[0]) + [d];
    assert clusters[0 := c'][1..] == clusters[1..];
  }

  lemma PlacePooled(clusters: seq<Cluster>, d: Detection, threshold: real)
    ensures Pooled(Place(clusters, d, threshold)) == Pooled(clusters) + multiset{d}
  {
    var k := FirstMatch(clusters, d, threshold);
    if k < |clusters| {
      PooledJoin(clusters, k, d);
    } else {
      PooledAppend(clusters, Cluster(d, []));
    }
  }

  lemma MultisetSnoc<T>(s: seq<T>)
    requires s != []
    ensures multiset(s) == multiset(s[..|s| - 1]) + multiset{s[|s| - 1]}
  {
    assert s == s[..|s| - 1] + [s[|s| - 1]];
  }

  /** Clustering is a partition: every input detection lands in exactly one
      cluster, and clusters hold nothing else (counted with multiplicity). */
  lemma {:induction false} ClustersPartition(detections: seq<Detection>, threshold: real)
    ensures Pooled(Clusters(detections, threshold)) == multiset(detections)
  {
    if detections != [] {
      var init, d := detections[..|detections| - 1], detections[|detections| - 1];
      var cs := Clusters(init, threshold);
      assert Clusters(detections, threshold) == Place(cs, d, threshold);
      ClustersPartition(init, threshold);
      PlacePooled(cs, d, threshold);
      MultisetSnoc(detections);
    }
  }

  /** The greedy, anchor-only, first-match rule as a property of the final
      clusters: each anchor failed to match every earlier anchor, and each
      joined detection matches its own anchor and no earlier cluster's anchor.
      Non-anchor members are never consulted. */
  predicate AnchorRule(clusters: seq<Cluster>, threshold: real) {
    && (forall k, j :: 0 <= j < k < |clusters| ==> Iou(clusters[k].anchor, clusters[j].anchor) <= threshold)
    && (forall k, m :: 0 <= k < |clusters| && 0 <= m < |clusters[k].joined| ==>
          Iou(clusters[k].joined[m], clusters[k].anchor) > threshold)
    && (forall k, m, j :: 0 <= j < k < |clusters| && 0 <= m < |clusters[k].joined| ==>
          Iou(clusters[k].joined[m], clusters[j].anchor) <= threshold)
  }

  lemma JoinKeepsAnchorRule(clusters: seq<Cluster>, k: nat, d: Detection, threshold: real)
    requires AnchorRule(clusters, threshold)
    requires k < |clusters| && Iou(d, clusters[k].anchor) > threshold
    requires forall j :: 0 <= j < k ==> Iou(d, clusters[j].anchor) <= threshold
    ensures AnchorRule(clusters[k := Cluster(clusters[k].anchor, clusters[k].joined + [d])], threshold)
  {
    var r := clusters[k := Cluster(clusters[k].anchor, clusters[k].joined + [d])];
    assert forall i :: 0 <= i < |r| ==> r[i].anchor == clusters[i].anchor;
    forall i, m | 0 <= i < |r| && 0 <= m < |r[i].joined|
      ensures r[i].joined[m] == (if i == k && m == |clusters[k].joined| then d else clusters[i].joined[m])
    {
    }
  }

  lemma OpenKeepsAnchorRule(clusters: seq<Cluster>, d: Detection, threshold: real)
    requires AnchorRule(clusters, threshold)
    requires forall j :: 0 <= j < |clusters| ==> Iou(d, clusters[j].anchor) <= threshold
    ensures AnchorRule(clusters + [Cluster(d, [])], threshold)
  {
    var r := clusters + [Cluster(d, [])];
    assert forall i :: 0 <= i < |clusters| ==> r[i] == clusters[i];
  }

  lemma PlaceKeepsAnchorRule(clusters: seq<Cluster>, d: Detection, threshold: real)
    requires AnchorRule(clusters, threshold)
    ensures AnchorRule(Place(clusters, d, threshold), threshold)
  {
    var k := FirstMatch(clusters, d, threshold);
    if k < |clusters| {
      JoinKeepsAnchorRule(clusters, k, d, threshold);
    } else {
      OpenKeepsAnchorRule(clusters, d, threshold);
    }
  }

  lemma {:induction false} ClustersFollowAnchorRule(detections: seq<Detection>, threshold: real)
    ensures AnchorRule(Clusters(detections, threshold), threshold)
  {
    if detections != [] {
      ClustersFollowAnchorRule(detections[..|detections| - 1], threshold);
      PlaceKeepsAnchorRule(Clusters(detections[..|detections| - 1], threshold), detections[|detections| - 1], threshold);
    }
  }

  // ---------------------------------------------------------------------------
  // Pinned scenarios

  lemma ClustersSnoc(s: seq<Detection>, d: Detection, threshold: real)
    ensures Clusters(s + [d], threshold) == Place(Clusters(s, threshold), d, threshold)
  {
    assert (s + [d])[..|s|] == s;
  }

  lemma PlaceAfterOne(c: Cluster, d: Detection, threshold: real)
    ensures Iou(d, c.anchor) > threshold ==> Place([c], d, threshold) == [Cluster(c.anchor, c.joined + [d])]
    ensures Iou(d, c.anchor) <= threshold ==> Place([c], d, threshold) == [c, Cluster(d, [])]
  {
  }

  /** The first detection always opens a cluster. */
  lemma ClustersOfOne(a: Detection, threshold: real)
    ensures Clusters([a], threshold) == [Cluster(a, [])]
  {
    ClustersSnoc([], a, threshold);
    assert [] + [a] == [a];
  }

  lemma IouOfOffsetSquares()
    ensures Iou(Detection(0.6, 10.5, 10.5, 4.0, 4.0), Detection(0.9, 10.0, 10.0, 4.0, 4.0)) == 12.25 / 19.75
  {
    var a := Detection(0.9, 10.0, 10.0, 4.0, 4.0);
    var b := Detection(0.6, 10.5, 10.5, 4.0, 4.0);
    assert Left(a) == 8.0 && Right(a) == 12.0 && Top(a) == 8.0 && Bottom(a) == 12.0;
    assert Left(b) == 8.5 && Right(b) == 12.5 && Top(b) == 8.5 && Bottom(b) == 12.5;
    assert Area(a) == 16.0 && Area(b) == 16.0;
    assert Iou(b, a) == OverlapRatio(b, a) == UnionRatio(3.5 * 3.5, 16.0, 16.0);
  }

  /** Two overlapping detections (IoU about 0.62) collapse into one cluster
      whose representative is the more confident one. */
  lemma TwoOverlappingDetectionsMerge()
    ensures var a := Detection(0.9, 10.0, 10.0, 4.0, 4.0);
            var b := Detection(0.6, 10.5, 10.5, 4.0, 4.0);
            Clusters([a, b], IOU_THRESHOLD) == [Cluster(a, [b])]
            && Representatives(Clusters([a, b], IOU_THRESHOLD)) == [a]
  {
    var a := Detection(0.9, 10.0, 10.0, 4.0, 4.0);
    var b := Detection(0.6, 10.5, 10.5, 4.0, 4.0);
    IouOfOffsetSquares();
    ClustersOfTwo(a, b, IOU_THRESHOLD);
    assert Members(Cluster(a, [b])) == [a, b];
    assert BestIndex([a, b]) == 0 by {
      assert [a, b][..1] == [a];
    }
  }

  lemma IouOfShiftedSquares(u: real, v: real)
    requires v == u + 1.5
    ensures Iou(Detection(0.8, v, 0.0, 4.0, 4.0), Detection(0.9, u, 0.0, 4.0, 4.0)) == 10.0 / 22.0
  {
    var a := Detection(0.9, u, 0.0, 4.0, 4.0);
    var b := Detection(0.8, v, 0.0, 4.0, 4.0);
    assert Area(a) == 16.0 && Area(b) == 16.0;
    assert InterWidth(b, a) == 2.5 && InterHeight(b, a) == 4.0;
    assert Iou(b, a) == OverlapRatio(b, a) == UnionRatio(2.5 * 4.0, 16.0, 16.0);
  }

  lemma IouOfDistantSquares()
    ensures Iou(Detection(0.7, 3.0, 0.0, 4.0, 4.0), Detection(0.9, 0.0, 0.0, 4.0, 4.0)) == 4.0 / 28.0
  {
    var a := Detection(0.9, 0.0, 0.0, 4.0, 4.0);
    var c := Detection(0.7, 3.0, 0.0, 4.0, 4.0);
    assert Area(a) == 16.0 && Area(c) == 16.0;
    assert InterWidth(c, a) == 1.0 && InterHeight(c, a) == 4.0;
    assert Iou(c, a) == OverlapRatio(c, a) == UnionRatio(1.0 * 4.0, 16.0, 16.0);
  }

  /** With B joining A's cluster and C too far from A, C opens a cluster of
      its own, whatever its overlap with B. */
  lemma ClustersOfThree(a: Detection, b: Detection, c: Detection, threshold: real)
    requires Iou(b, a) > threshold && Iou(c, a) <= threshold
    ensures Clusters([a, b, c], threshold) == [Cluster(a, [b]), Cluster(c, [])]
  {
    ClustersOfTwo(a, b, threshold);
    ClustersSnoc([a, b], c, threshold);
    assert [a, b] + [c] == [a, b, c];
    PlaceAfterOne(Cluster(a, [b]), c, threshold);
  }

  /** A second detection overlapping the first joins its cluster. */
  lemma ClustersOfTwo(a: Detection, b: Detection, threshold: real)
    requires Iou(b, a) > threshold
    ensures Clusters([a, b], threshold) == [Cluster(a, [b])]
  {
    ClustersOfOne(a, threshold);
    ClustersSnoc([a], b, threshold);
    assert [a] + [b] == [a, b];
    PlaceAfterOne(Cluster(a, []), b, threshold);
    var none: seq<Detection> := [];
    assert none + [b] == [b];
  }

  /** Matching is against anchors only, so it is not transitive: with
      IoU(A, B) > 0.3, IoU(B, C) > 0.3 and IoU(A, C) <= 0.3, the order
      [A, B, C] yields the clusters {A, B} and {C}. */
  lemma AnchorOnlyMatching()
    ensures var a := Detection(0.9, 0.0, 0.0, 4.0, 4.0);
            var b := Detection(0.8, 1.5, 0.0, 4.0, 4.0);
            var c := Detection(0.7, 3.0, 0.0, 4.0, 4.0);
            && Iou(a, b) > IOU_THRESHOLD && Iou(b, c) > IOU_THRESHOLD && Iou(a, c) <= IOU_THRESHOLD
            && Clusters([a, b, c], IOU_THRESHOLD) == [Cluster(a, [b]), Cluster(c, [])]
  {
    var a := Detection(0.9, 0.0, 0.0, 4.0, 4.0);
    var b := Detection(0.8, 1.5, 0.0, 4.0, 4.0);
    var c := Detection(0.7, 3.0, 0.0, 4.0, 4.0);
    IouOfShiftedSquares(0.0, 1.5);
    IouOfShiftedSquares(1.5, 3.0);
    assert Iou(Detection(0.8, 3.0, 0.0, 4.0, 4.0), b.(confidence := 0.9)) == Iou(c, b);
    IouOfDistantSquares();
    IouSymmetric(a, b);
    IouSymmetric(b, c);
    IouSymmetric(a, c);
    ClustersOfThree(a, b, c, IOU_THRESHOLD);
  }
}
