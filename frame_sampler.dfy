/**
 * The frame loop of `analyze_video` (ml-server/main.py): frames are read in
 * order, only every FRAME_INTERVAL-th one goes to the detector, all
 * predictions are pooled, and the first sampled frame that produced any
 * prediction is kept as the preview.
 *
 * A frame is opaque apart from its size; `predictions` is what the remote
 * detector returns for it (already sorted by descending confidence), which
 * is only looked at when the frame is sampled.
 */
module FrameSampler {
  import opened Js
  import opened BoxGeometry

  const FRAME_INTERVAL: nat := 20

  datatype Frame = Frame(width: nat, height: nat, predictions: seq<Detection>)

  predicate Sampled(index: nat) {
    index % FRAME_INTERVAL == 0
  }

  /** Everything the detector reported on the sampled frames of `video`,
      frame by frame and in the detector's order within a frame. */
  function SampledDetections(video: seq<Frame>): seq<Detection> {
    if video == [] then []
    else
      var i := |video| - 1;
      SampledDetections(video[..i]) + (if Sampled(i) then video[i].predictions else [])
  }

  /** The preview frame after reading `video`: the first sampled frame with
      at least one prediction, if any. */
  function Preview(video: seq<Frame>): Option<Frame> {
    if video == [] then None
    else
      var i := |video| - 1;
      if Preview(video[..i]).Some? then Preview(video[..i])
      else if Sampled(i) && video[i].predictions != [] then Some(video[i])
      else None
  }

  /** The source's loop: `frame_index` counts every frame read, unsampled
      frames are skipped with `continue`, and the preview is taken while
      appending the first prediction of the first productive frame. */
  method CollectDetections(video: seq<Frame>) returns (all: seq<Detection>, preview: Option<Frame>)
    ensures all == SampledDetections(video)
    ensures preview == Preview(video)
  {
    all := [];
    preview := None;
    var frameIndex := 0;
    while frameIndex < |video|
      invariant frameIndex <= |video|
      invariant all == SampledDetections(video[..frameIndex])
      invariant preview == Preview(video[..frameIndex])
    {
      var frame := video[frameIndex];
      assert video[..frameIndex + 1][..frameIndex] == video[..frameIndex];
      if frameIndex % FRAME_INTERVAL != 0 {
        frameIndex := frameIndex + 1;
        continue;
      }
      var predictions := frame.predictions;
      ghost var before := preview;
      for k := 0 to |predictions|
        invariant all == SampledDetections(video[..frameIndex]) + predictions[..k]
        invariant preview == if k == 0 || before.Some? then before else Some(frame)
      {
        all := all + [predictions[k]];
        assert predictions[..k + 1] == predictions[..k] + [predictions[k]];
        if preview.None? && |predictions| > 0 {
          preview := Some(frame);
        }
      }
      assert predictions[..|predictions|] == predictions;
      frameIndex := frameIndex + 1;
    }
    assert video[..|video|] == video;
  }

  // ---------------------------------------------------------------------------
  // Properties

  /** A detection is pooled exactly when some sampled frame reported it. */
  lemma {:induction false} SampledDetectionsMembership(video: seq<Frame>, d: Detection)
    ensures d in SampledDetections(video) <==>
            exists i :: 0 <= i < |video| && Sampled(i) && d in video[i].predictions
  {
    if video != [] {
      var n := |video| - 1;
      SampledDetectionsMembership(video[..n], d);
      if d in SampledDetections(video) && d !in SampledDetections(video[..n]) {
        assert Sampled(n) && d in video[n].predictions;
      }
      if exists i :: 0 <= i < |video| && Sampled(i) && d in video[i].predictions {
        var i :| 0 <= i < |video| && Sampled(i) && d in video[i].predictions;
        if i < n {
          assert video[..n][i] == video[i];
        }
      }
    }
  }

  /** Frames that are not sampled never contribute, whatever the detector
      would have said about them. */
  lemma {:induction false} UnsampledFramesIgnored(video: seq<Frame>, video': seq<Frame>)
    requires |video| == |video'|
    requires forall i :: 0 <= i < |video| && Sampled(i) ==> video[i] == video'[i]
    ensures SampledDetections(video) == SampledDetections(video')
    ensures Preview(video) == Preview(video')
  {
    if video != [] {
      var n := |video| - 1;
      UnsampledFramesIgnored(video[..n], video'[..n]);
    }
  }

  /** The preview is the first sampled frame that produced a prediction, and
      there is none exactly when no sampled frame produced one. */
  lemma {:induction false} PreviewIsFirstProductive(video: seq<Frame>)
    ensures Preview(video).None? ==>
            forall i :: 0 <= i < |video| && Sampled(i) ==> video[i].predictions == []
    ensures Preview(video).Some? ==>
            exists i :: 0 <= i < |video| && Sampled(i) && video[i].predictions != []
                        && Preview(video) == Some(video[i])
                        && forall j :: 0 <= j < i && Sampled(j) ==> video[j].predictions == []
  {
    if video != [] {
      var n := |video| - 1;
      PreviewIsFirstProductive(video[..n]);
      if Preview(video[..n]).Some? {
        var i :| 0 <= i < n && Sampled(i) && video[..n][i].predictions != []
                 && Preview(video[..n]) == Some(video[..n][i])
                 && forall j :: 0 <= j < i && Sampled(j) ==> video[..n][j].predictions == [];
        assert video[..n][i] == video[i];
        forall j | 0 <= j < i && Sampled(j) ensures video[j].predictions == [] {
          assert video[..n][j] == video[j];
        }
      } else {
        forall i | 0 <= i < n && Sampled(i) ensures video[i].predictions == [] {
          assert video[..n][i] == video[i];
        }
      }
    }
  }

  /** There is a preview frame exactly when something was detected. */
  lemma {:induction false} PreviewIffDetections(video: seq<Frame>)
    ensures Preview(video).Some? <==> SampledDetections(video) != []
  {
    if video != [] {
      PreviewIffDetections(video[..|video| - 1]);
    }
  }
}
