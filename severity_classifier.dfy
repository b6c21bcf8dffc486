/**
 * Severity grading of the analysis server (ml-server/main.py): one
 * confidence-threshold grade per deduplicated pothole, and the overall
 * severity of a video as the worst grade present.
 */
module SeverityClassifier {
  import opened BoxGeometry
  import opened IouClusterer

  const HIGH_THRESHOLD: real := 0.77
  const MEDIUM_THRESHOLD: real := 0.50

  /** `classify_severity`: "high" from 0.77 up, "medium" from 0.50 up,
      "low" below. */
  function ClassifySeverity(confidence: real): (s: string)
    ensures s == "high" <==> confidence >= HIGH_THRESHOLD
    ensures s == "medium" <==> MEDIUM_THRESHOLD <= confidence < HIGH_THRESHOLD
    ensures s == "low" <==> confidence < MEDIUM_THRESHOLD
  {
    if confidence >= HIGH_THRESHOLD then "high"
    else if confidence >= MEDIUM_THRESHOLD then "medium"
    else "low"
  }

  /** Order of the grades; -1 for any other string. */
  function Rank(s: string): int {
    if s == "high" then 2 else if s == "medium" then 1 else if s == "low" then 0 else -1
  }

  /** A more confident detection never gets a lower grade. */
  lemma ClassifyMonotone(c1: real, c2: real)
    requires c1 <= c2
    ensures 0 <= Rank(ClassifySeverity(c1)) <= Rank(ClassifySeverity(c2))
  {
  }

  /** The overall severity of a list of grades: "none" for no grades,
      otherwise the worst grade present, with "low" as the last resort. */
  function OverallSeverity(severities: seq<string>): (r: string)
    ensures r == "none" <==> severities == []
    ensures r == "high" <==> "high" in severities
    ensures r == "medium" <==> "high" !in severities && "medium" in severities
    ensures r == "low" <==> severities != [] && "high" !in severities && "medium" !in severities
  {
    if severities == [] then "none"
    else if "high" in severities then "high"
    else if "medium" in severities then "medium"
    else "low"
  }

  /** The grade of every detection, in order. */
  function Grades(ds: seq<Detection>): (g: seq<string>)
    ensures |g| == |ds|
    ensures forall k :: 0 <= k < |ds| ==> g[k] == ClassifySeverity(ds[k].confidence)
  {
    seq(|ds|, k requires 0 <= k < |ds| => ClassifySeverity(ds[k].confidence))
  }

  /** Grading each detection and then taking the worst grade is the same as
      grading the most confident detection. */
  lemma {:induction false} OverallIsGradeOfMostConfident(ds: seq<Detection>)
    requires ds != []
    ensures OverallSeverity(Grades(ds)) == ClassifySeverity(ds[BestIndex(ds)].confidence)
  {
    var m := BestIndex(ds);
    var g := Grades(ds);
    var top := ClassifySeverity(ds[m].confidence);
    assert g[m] == top;
    if top != "high" {
      forall k | 0 <= k < |ds| ensures g[k] != "high" {
        assert ds[k].confidence <= ds[m].confidence;
      }
      if top != "medium" {
        forall k | 0 <= k < |ds| ensures g[k] != "medium" {
          assert ds[k].confidence <= ds[m].confidence;
        }
      }
    }
  }
}
