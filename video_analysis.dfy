/**
 * The reduction performed by `analyze_video` (ml-server/main.py) once the
 * video has been read: pooled detections are deduplicated, cut to the first
 * MAX_DETECTIONS clusters, graded, and turned into a response with one
 * thumbnail per pothole, an annotated preview and an overall severity.
 *
 * JPEG/base64 encoding and box drawing are abstract: an `Image` records
 * which frame, or which region of it, would be encoded.
 */
module VideoAnalysis {
  import opened Js
  import opened BoxGeometry
  import opened IouClusterer
  import opened SeverityClassifier
  import opened FrameSampler

  const MAX_DETECTIONS: nat := 8

  datatype Image =
    | Annotated(frame: Frame, boxes: seq<Detection>)
      // the preview frame with one box drawn per pothole
    | Thumbnail(frame: Frame, top: nat, bottom: nat, left: nat, right: nat)
      // rows [top, bottom) and columns [left, right) of the frame, boxed
    | WholeFrame(frame: Frame)

  datatype PotholeEntry = PotholeEntry(
    confidence: real, severity: string,
    x: real, y: real, width: real, height: real,
    previewImage: Image)

  datatype Analysis = Analysis(potholes: seq<PotholeEntry>, previewImage: Option<Image>, severity: string)

  /** numpy's reading of a slice bound `i` on an axis of length `n`: negative
      bounds count from the end, and everything is clamped to [0, n]. */
  function SliceBound(i: int, n: nat): (b: nat)
    ensures b <= n
  {
    if i < 0 then (if i + n < 0 then 0 else i + n) else if i > n then n else i
  }

  /** The integer crop corners `x1, y1, x2, y2`: the box clamped to the
      frame, then truncated towards zero. */
  function CropCorners(d: Detection, width: nat, height: nat): (c: (int, int, int, int))
    ensures 0 <= c.0 && 0 <= c.1
    ensures c.2 <= width && c.3 <= height
  {
    (Trunc(Max(Left(d), 0.0)), Trunc(Max(Top(d), 0.0)),
     Trunc(Min(Right(d), width as real)), Trunc(Min(Bottom(d), height as real)))
  }

  /** The thumbnail of a detection: the crop `frame[y1:y2, x1:x2]` when it is
      non-empty, otherwise the whole frame. A box inside the frame is cut
      at its corners; one whose far corners do not pass its near ones gives
      the whole frame; a negative far corner counts from the frame's far
      edge, as numpy reads it. */
  function ThumbnailOf(frame: Frame, d: Detection): (img: Image)
    ensures img.Thumbnail? || img == WholeFrame(frame)
    ensures img.Thumbnail? ==>
              && img.frame == frame
              && img.top < img.bottom <= frame.height
              && img.left < img.right <= frame.width
    ensures var c := CropCorners(d, frame.width, frame.height);
            c.0 < c.2 && c.1 < c.3 ==> img == Thumbnail(frame, c.1, c.3, c.0, c.2)
    ensures var c := CropCorners(d, frame.width, frame.height);
            (0 <= c.2 <= c.0 || 0 <= c.3 <= c.1) ==> img == WholeFrame(frame)
    ensures var c := CropCorners(d, frame.width, frame.height);
            img.Thumbnail? ==>
              && img.left == c.0 && img.top == c.1
              && img.right == (if c.2 < 0 then c.2 + frame.width else c.2)
              && img.bottom == (if c.3 < 0 then c.3 + frame.height else c.3)
  {
    var c := CropCorners(d, frame.width, frame.height);
    var top, bottom := SliceBound(c.1, frame.height), SliceBound(c.3, frame.height);
    var left, right := SliceBound(c.0, frame.width), SliceBound(c.2, frame.width);
    if top < bottom && left < right then Thumbnail(frame, top, bottom, left, right)
    else WholeFrame(frame)
  }

  /** A box lying inside the frame is cropped to its own truncated corners. */
  lemma ThumbnailOfInnerBox(frame: Frame, d: Detection)
    requires 0.0 <= Left(d) && Right(d) <= frame.width as real
    requires 0.0 <= Top(d) && Bottom(d) <= frame.height as real
    requires Trunc(Left(d)) < Trunc(Right(d)) && Trunc(Top(d)) < Trunc(Bottom(d))
    ensures ThumbnailOf(frame, d)
         == Thumbnail(frame, Trunc(Top(d)), Trunc(Bottom(d)), Trunc(Left(d)), Trunc(Right(d)))
  {
  }

  /** A box entirely above the frame gives a negative `y2`, which numpy reads
      as counting from the bottom: the crop is then most of the frame's
      height rather than empty. */
  lemma ThumbnailOfBoxAboveFrame()
    ensures var frame := Frame(100, 100, []);
            ThumbnailOf(frame, Detection(0.9, 50.0, -10.0, 10.0, 4.0)) == Thumbnail(frame, 0, 92, 45, 55)
  {
    var d := Detection(0.9, 50.0, -10.0, 10.0, 4.0);
    assert Left(d) == 45.0 && Right(d) == 55.0 && Top(d) == -12.0 && Bottom(d) == -8.0;
    assert Trunc(-8.0) == -8;
  }

  /** The first `n` elements, as Python's `s[:n]`. */
  function Take<T>(s: seq<T>, n: nat): (r: seq<T>)
    ensures |r| <= n && r <= s
    ensures |s| <= n ==> r == s
  {
    if |s| <= n then s else s[..n]
  }

  /** The detections reported for `video`: one representative per cluster, in
      cluster-creation order, cut to MAX_DETECTIONS (not re-sorted). */
  function Kept(video: seq<Frame>): seq<Detection> {
    Take(Representatives(Clusters(SampledDetections(video), IOU_THRESHOLD)), MAX_DETECTIONS)
  }

  function Entry(d: Detection, thumbnail: Image): PotholeEntry {
    PotholeEntry(d.confidence, ClassifySeverity(d.confidence), d.x, d.y, d.width, d.height, thumbnail)
  }

  /** Something is kept exactly when something was detected, and then there
      is a preview frame. */
  lemma KeptIffDetected(video: seq<Frame>)
    ensures Kept(video) != [] <==> SampledDetections(video) != []
    ensures Kept(video) != [] <==> Preview(video).Some?
  {
    ClusterCount(SampledDetections(video), IOU_THRESHOLD);
    PreviewIffDetections(video);
  }

  /** The grading loop: `det["severity"] = classify_severity(...)` for each
      kept detection, in order. */
  method GradeAll(clustered: seq<Detection>) returns (severities: seq<string>)
    ensures severities == Grades(clustered)
  {
    severities := [];
    for k := 0 to |clustered|
      invariant |severities| == k
      invariant forall j :: 0 <= j < k ==> severities[j] == ClassifySeverity(clustered[j].confidence)
    {
      severities := severities + [ClassifySeverity(clustered[k].confidence)];
    }
  }

  /** The thumbnail loop: one response entry per kept detection, carrying
      its grade and its crop of the preview frame. */
  method BuildEntries(frame: Frame, clustered: seq<Detection>, severities: seq<string>)
    returns (potholes: seq<PotholeEntry>)
    requires severities == Grades(clustered)
    ensures |potholes| == |clustered|
    ensures forall k :: 0 <= k < |clustered| ==> potholes[k] == Entry(clustered[k], ThumbnailOf(frame, clustered[k]))
  {
    potholes := [];
    for k := 0 to |clustered|
      invariant |potholes| == k
      invariant forall j :: 0 <= j < k ==> potholes[j] == Entry(clustered[j], ThumbnailOf(frame, clustered[j]))
    {
      var det := clustered[k];
      var thumbnail := ThumbnailOf(frame, det);
      potholes := potholes + [PotholeEntry(det.confidence, severities[k], det.x, det.y, det.width, det.height, thumbnail)];
    }
  }

  /** `analyze_video` after the upload has been read into frames. */
  method AnalyzeVideo(video: seq<Frame>) returns (result: Analysis)
    ensures |result.potholes| == |Kept(video)| <= MAX_DETECTIONS
    ensures forall k :: 0 <= k < |Kept(video)| ==>
              && Preview(video).Some?
              && result.potholes[k] == Entry(Kept(video)[k], ThumbnailOf(Preview(video).value, Kept(video)[k]))
    ensures result.previewImage.Some? <==> Kept(video) != []
    ensures result.previewImage.Some? ==>
              Preview(video).Some? && result.previewImage == Some(Annotated(Preview(video).value, Kept(video)))
    ensures result.severity == OverallSeverity(Grades(Kept(video)))
    ensures result.severity == "none" <==> SampledDetections(video) == []
  {
    var all, previewFrame := CollectDetections(video);
    var clustered := ClusterDetections(all, IOU_THRESHOLD);
    clustered := Take(clustered, MAX_DETECTIONS);
    KeptIffDetected(video);
    assert previewFrame == Preview(video) && clustered == Kept(video);

    var severities := GradeAll(clustered);

    var previewImage: Option<Image> := None;
    if previewFrame.Some? && clustered != [] {
      previewImage := Some(Annotated(previewFrame.value, clustered));
    }

    var potholes: seq<PotholeEntry> := [];
    if previewFrame.Some? {
      potholes := BuildEntries(previewFrame.value, clustered, severities);
    } else {
      assert clustered == [];
    }

    result := Analysis(potholes, previewImage, OverallSeverity(severities));
  }

  /** The overall severity of a video is the grade of its most confident
      kept pothole. */
  lemma OverallIsGradeOfMostConfidentKept(video: seq<Frame>)
    requires Kept(video) != []
    ensures OverallSeverity(Grades(Kept(video)))
         == ClassifySeverity(Kept(video)[BestIndex(Kept(video))].confidence)
  {
    OverallIsGradeOfMostConfident(Kept(video));
  }

  /** Every kept detection was reported by the detector on a sampled frame,
      and each one represents a distinct cluster of the greedy pass. */
  lemma KeptWereDetected(video: seq<Frame>, k: nat)
    requires k < |Kept(video)|
    ensures exists i :: 0 <= i < |video| && Sampled(i) && Kept(video)[k] in video[i].predictions
  {
    var all := SampledDetections(video);
    var cs := Clusters(all, IOU_THRESHOLD);
    var d := Kept(video)[k];
    assert d == Representatives(cs)[k] && d in Members(cs[k]);
    ClusterMembersDetected(cs, k, d);
    ClustersPartition(all, IOU_THRESHOLD);
    SampledDetectionsMembership(video, d);
  }

  lemma {:induction false} ClusterMembersDetected(cs: seq<Cluster>, k: nat, d: Detection)
    requires k < |cs| && d in Members(cs[k])
    ensures d in Pooled(cs)
  {
    assert Pooled(cs) == multiset(Members(cs[0])) + Pooled(cs[1..]);
    if k > 0 {
      assert cs[1..][k - 1] == cs[k];
      ClusterMembersDetected(cs[1..], k - 1, d);
    } else {
      assert d in multiset(Members(cs[0]));
    }
  }
}
