/**
 * The upload page's client-side logic (frontend/src/pages/UploadVideo.tsx):
 * timestamp parsing, the delimited-text GPS parser with header detection,
 * and the overall severity shown for an analysed video.
 *
 * `Date.parse` and `Number` are parameters (`dateParse`, `toNumber`): the
 * model fixes when they are called and what is done with their results,
 * not how JavaScript converts text to numbers.
 */
module UploadVideo {
  import opened Js
  import opened BoxGeometry
  import SeverityClassifier

  // ---------------------------------------------------------------------------
  // parseTimestamp

  datatype TimestampInput = TsNumber(n: Num) | TsString(s: string) | TsAbsent

  /** `parseTimestamp`: finite numbers as they are; a non-blank string as its
      `Date.parse` value (of the trimmed text) or, failing that, as its
      `Number` value; everything else `undefined`. */
  function ParseTimestamp(value: TimestampInput, dateParse: string -> Num, toNumber: string -> Num): (r: Option<Num>)
    ensures value.TsNumber? ==> (r.Some? <==> value.n.Finite?) && (r.Some? ==> r.value == value.n)
    ensures value.TsAbsent? ==> r.None?
    ensures value.TsString? && Trim(value.s) == [] ==> r.None?
    ensures value.TsString? && Trim(value.s) != [] ==>
              && (r.None? <==> dateParse(Trim(value.s)).NaN? && toNumber(value.s).NaN?)
              && (!dateParse(Trim(value.s)).NaN? ==> r == Some(dateParse(Trim(value.s))))
    ensures r.Some? ==> !r.value.NaN?
  {
    match value
    case TsNumber(n) => if n.Finite? then Some(n) else None
    case TsString(s) =>
      if Trim(s) == [] then None
      else if !dateParse(Trim(s)).NaN? then Some(dateParse(Trim(s)))
      else if !toNumber(s).NaN? then Some(toNumber(s))
      else None
    case TsAbsent => None
  }

  // ---------------------------------------------------------------------------
  // Lines and tokens

  /** The pieces of `text` between '\n' characters. */
  function SplitNewlines(text: string): (r: seq<string>)
    ensures |r| >= 1
  {
    var i := IndexOf(text, '\n');
    if i < 0 then [text] else [text[..i]] + SplitNewlines(text[i + 1..])
  }

  /** `text.split(/\r?\n/)`: a '\r' just before a '\n' belongs to the
      separator. */
  function DropCr(line: string): string {
    if line != [] && line[|line| - 1] == '\r' then line[..|line| - 1] else line
  }

  function NonBlank(pieces: seq<string>): (r: seq<string>)
    ensures |r| <= |pieces|
  {
    if pieces == [] then []
    else (if pieces[0] != [] then [pieces[0]] else []) + NonBlank(pieces[1..])
  }

  function TrimAll(pieces: seq<string>): (r: seq<string>)
    ensures |r| == |pieces|
    ensures forall k :: 0 <= k < |r| ==> r[k] == Trim(pieces[k])
  {
    seq(|pieces|, k requires 0 <= k < |pieces| => Trim(pieces[k]))
  }

  /** The lines of the file, trimmed, without blank ones. */
  function Lines(text: string): (r: seq<string>)
  {
    var raw := SplitNewlines(text);
    NonBlank(TrimAll(seq(|raw|, k requires 0 <= k < |raw| => DropCr(raw[k]))))
  }

  /** The characters of `/[,;\t\s]+/`. */
  predicate IsSeparator(c: char) {
    c == ',' || c == ';' || IsSpace(c)
  }

  function SeparatorRunEnd(s: string, i: nat): (j: nat)
    requires i <= |s|
    ensures i <= j <= |s|
    ensures forall k :: i <= k < j ==> IsSeparator(s[k])
    ensures j < |s| ==> !IsSeparator(s[j])
    decreases |s| - i
  {
    if i < |s| && IsSeparator(s[i]) then SeparatorRunEnd(s, i + 1) else i
  }

  function FirstSeparator(s: string): (i: nat)
    ensures i <= |s|
    ensures forall k :: 0 <= k < i ==> !IsSeparator(s[k])
    ensures i < |s| ==> IsSeparator(s[i])
  {
    if s == [] || IsSeparator(s[0]) then 0 else 1 + FirstSeparator(s[1..])
  }

  /** `s.split(/[,;\t\s]+/)`: the text between maximal runs of separators,
      with an empty first token when `s` starts with one and an empty last
      token when it ends with one. */
  function SplitTokens(s: string): (r: seq<string>)
    ensures |r| >= 1
    decreases |s|
  {
    var i := FirstSeparator(s);
    if i == |s| then [s]
    else [s[..i]] + SplitTokens(s[SeparatorRunEnd(s, i)..])
  }

  /** Header tokens: the lower-cased first line, split, empty tokens kept. */
  function HeaderTokens(line: string): seq<string> {
    SplitTokens(ToLower(line))
  }

  /** Data tokens: split, trimmed, empty tokens dropped. */
  function RowTokens(line: string): (r: seq<string>)
  {
    NonBlank(TrimAll(SplitTokens(line)))
  }

  /** `tokens.findIndex(t => t.includes(sub))`. */
  function FindIndex(tokens: seq<string>, sub: string): (r: int)
    ensures -1 <= r < |tokens|
    ensures r >= 0 ==> Contains(tokens[r], sub) && forall k :: 0 <= k < r ==> !Contains(tokens[k], sub)
    ensures r == -1 ==> forall k :: 0 <= k < |tokens| ==> !Contains(tokens[k], sub)
  {
    if tokens == [] then -1
    else if Contains(tokens[0], sub) then 0
    else
      var r := FindIndex(tokens[1..], sub);
      if r == -1 then -1 else r + 1
  }

  // ---------------------------------------------------------------------------
  // parseDelimitedGps

  /** Column choice: positions of latitude, longitude and time, and whether
      the first line is a header. */
  datatype Columns = Columns(hasHeader: bool, lat: int, lon: int, time: int)

  /** A header is a first line with some token containing "lat" and some
      containing "lon". The source's `?? findIndex(... 'lng')` never applies:
      `findIndex` answers -1, not null, so a "lng" header is not recognised. */
  function DetectColumns(first: string): (c: Columns)
    ensures !c.hasHeader ==> c.lat == 0 && c.lon == 1 && c.time == 2
  {
    var tokens := HeaderTokens(first);
    var latIndex := FindIndex(tokens, "lat");
    var lonIndex := FindIndex(tokens, "lon");
    var tsIndex := FindIndex(tokens, "time");
    var hasHeader := latIndex != -1 && lonIndex != -1;
    if hasHeader then Columns(true, latIndex, lonIndex, tsIndex) else Columns(false, 0, 1, 2)
  }

  /** The first line is a header exactly when one of its tokens mentions
      "lat" and one mentions "lon"; the columns are then the first such
      tokens, and the time column the first token mentioning "time" (-1 if
      none). */
  lemma HeaderDetection(first: string)
    ensures var tokens := HeaderTokens(first);
            DetectColumns(first).hasHeader <==>
              (exists k :: 0 <= k < |tokens| && Contains(tokens[k], "lat"))
              && (exists k :: 0 <= k < |tokens| && Contains(tokens[k], "lon"))
    ensures var tokens := HeaderTokens(first);
            var c := DetectColumns(first);
            c.hasHeader ==>
              && 0 <= c.lat < |tokens| && Contains(tokens[c.lat], "lat")
              && (forall k :: 0 <= k < c.lat ==> !Contains(tokens[k], "lat"))
              && 0 <= c.lon < |tokens| && Contains(tokens[c.lon], "lon")
              && (forall k :: 0 <= k < c.lon ==> !Contains(tokens[k], "lon"))
              && (c.time == -1 <==> forall k :: 0 <= k < |tokens| ==> !Contains(tokens[k], "time"))
  {
  }

  function GetValue(tokens: seq<string>, index: int): Option<string> {
    if 0 <= index < |tokens| then Some(tokens[index]) else None
  }

  datatype ParsedGpsPoint = ParsedGpsPoint(latitude: Num, longitude: Num, timestamp: Option<Num>)

  /** `token ? Number(token) : NaN`. */
  function Coordinate(token: Option<string>, toNumber: string -> Num): (n: Num)
    ensures token.None? || token.value == [] ==> n.NaN?
  {
    if token.Some? && token.value != [] then toNumber(token.value) else NaN
  }

  /** `tsToken ? parseTimestamp(tsToken) ?? undefined : undefined`. */
  function TokenTimestamp(token: Option<string>, dateParse: string -> Num, toNumber: string -> Num): (t: Option<Num>)
    ensures token.None? || token.value == [] ==> t.None?
  {
    if token.Some? && token.value != [] then ParseTimestamp(TsString(token.value), dateParse, toNumber) else None
  }

  /** The point one data line yields, if any: it needs two tokens and
      numeric (non-NaN) latitude and longitude. */
  function ParseRow(line: string, cols: Columns, dateParse: string -> Num, toNumber: string -> Num)
    : (r: Option<ParsedGpsPoint>)
    ensures |RowTokens(line)| < 2 ==> r.None?
    ensures r.Some? ==> !r.value.latitude.NaN? && !r.value.longitude.NaN?
  {
    var tokens := RowTokens(line);
    if |tokens| < 2 then None
    else
      var latitude := Coordinate(GetValue(tokens, cols.lat), toNumber);
      var longitude := Coordinate(GetValue(tokens, cols.lon), toNumber);
      if latitude.NaN? || longitude.NaN? then None
      else Some(ParsedGpsPoint(latitude, longitude, TokenTimestamp(GetValue(tokens, cols.time), dateParse, toNumber)))
  }

  lemma ParseRowShort(line: string, cols: Columns, dateParse: string -> Num, toNumber: string -> Num)
    requires |RowTokens(line)| < 2
    ensures ParseRow(line, cols, dateParse, toNumber) == None
  {
  }

  /** The two outcomes of a line with at least two tokens. */
  lemma ParseRowCases(line: string, cols: Columns, dateParse: string -> Num, toNumber: string -> Num)
    requires |RowTokens(line)| >= 2
    ensures var tokens := RowTokens(line);
            var latitude := Coordinate(GetValue(tokens, cols.lat), toNumber);
            var longitude := Coordinate(GetValue(tokens, cols.lon), toNumber);
            ParseRow(line, cols, dateParse, toNumber)
              == if latitude.NaN? || longitude.NaN? then None
                 else Some(ParsedGpsPoint(latitude, longitude, TokenTimestamp(GetValue(tokens, cols.time), dateParse, toNumber)))
  {
  }

  /** The values of the `Some` entries among `s[a..i]`, in order. */
  function Kept<T>(s: seq<Option<T>>, a: nat, i: nat): (r: seq<T>)
    requires a <= i <= |s|
    ensures |r| <= i - a
    decreases i - a
  {
    if i == a then []
    else Kept(s, a, i - 1) + (if s[i - 1].Some? then [s[i - 1].value] else [])
  }

  /** One more entry of the range. */
  lemma KeepStep<T>(s: seq<Option<T>>, a: nat, i: nat, values: seq<T>, next: Option<T>)
    requires a <= i < |s| && values == Kept(s, a, i) && s[i] == next
    ensures Kept(s, a, i + 1) == values + (if next.Some? then [next.value] else [])
  {
  }

  /** Every kept value comes from a `Some` entry of the range. */
  lemma {:induction false} KeptOrigin<T>(s: seq<Option<T>>, a: nat, i: nat, k: nat)
    requires a <= i <= |s| && k < |Kept(s, a, i)|
    ensures exists j :: a <= j < i && s[j] == Some(Kept(s, a, i)[k])
    decreases i - a
  {
    if k < |Kept(s, a, i - 1)| {
      KeptOrigin(s, a, i - 1, k);
    } else {
      assert s[i - 1] == Some(Kept(s, a, i)[k]);
    }
  }

  /** The result of each line of `lines`, in order. */
  function RowResults(lines: seq<string>, cols: Columns, dateParse: string -> Num, toNumber: string -> Num)
    : (r: seq<Option<ParsedGpsPoint>>)
    ensures |r| == |lines|
  {
    if lines == [] then []
    else RowResults(lines[..|lines| - 1], cols, dateParse, toNumber) + [ParseRow(lines[|lines| - 1], cols, dateParse, toNumber)]
  }

  /** Entry `i` is the result of line `i`. */
  lemma {:induction false} RowResultAt(lines: seq<string>, cols: Columns, dateParse: string -> Num, toNumber: string -> Num, i: nat)
    requires i < |lines|
    ensures RowResults(lines, cols, dateParse, toNumber)[i] == ParseRow(lines[i], cols, dateParse, toNumber)
  {
    if i < |lines| - 1 {
      RowResultAt(lines[..|lines| - 1], cols, dateParse, toNumber, i);
    }
  }

  /** The points of already split lines: the first line decides the
      columns and, if it is a header, is skipped. */
  function LinesGps(lines: seq<string>, dateParse: string -> Num, toNumber: string -> Num): (r: seq<ParsedGpsPoint>)
  {
    if lines == [] then []
    else
      var cols := DetectColumns(lines[0]);
      Kept(RowResults(lines, cols, dateParse, toNumber), if cols.hasHeader then 1 else 0, |lines|)
  }

  /** What `parseDelimitedGps` returns: the points of the data lines (all
      lines but a header), in line order. */
  function DelimitedGps(text: string, dateParse: string -> Num, toNumber: string -> Num): (r: seq<ParsedGpsPoint>)
  {
    LinesGps(Lines(text), dateParse, toNumber)
  }

  /** The body of `parseDelimitedGps`'s line loop: `None` where the source
      `continue`s (fewer than two tokens, or a NaN coordinate), otherwise
      the point it pushes. */
  method ParseLine(line: string, cols: Columns, dateParse: string -> Num, toNumber: string -> Num)
    returns (point: Option<ParsedGpsPoint>)
    ensures point == ParseRow(line, cols, dateParse, toNumber)
  {
    var tokens := RowTokens(line);
    if |tokens| < 2 {
      ParseRowShort(line, cols, dateParse, toNumber);
      return None;
    }
    var latToken := GetValue(tokens, cols.lat);
    var lonToken := GetValue(tokens, cols.lon);
    var tsToken := GetValue(tokens, cols.time);
    var latitude := Coordinate(latToken, toNumber);
    var longitude := Coordinate(lonToken, toNumber);
    ParseRowCases(line, cols, dateParse, toNumber);
    if latitude.NaN? || longitude.NaN? {
      return None;
    }
    var timestamp := TokenTimestamp(tsToken, dateParse, toNumber);
    point := Some(ParsedGpsPoint(latitude, longitude, timestamp));
  }

  /** `parseDelimitedGps`: split the text into lines, then scan them. */
  method ParseDelimitedGps(text: string, dateParse: string -> Num, toNumber: string -> Num)
    returns (data: seq<ParsedGpsPoint>)
    ensures data == DelimitedGps(text, dateParse, toNumber)
  {
    var lines := Lines(text);
    data := ScanLines(lines, dateParse, toNumber);
  }

  /** The rest of `parseDelimitedGps` once the lines are known: the header
      test, then the line loop. */
  method ScanLines(lines: seq<string>, dateParse: string -> Num, toNumber: string -> Num)
    returns (data: seq<ParsedGpsPoint>)
    ensures data == LinesGps(lines, dateParse, toNumber)
  {
    if |lines| == 0 {
      return [];
    }
    var cols := DetectColumns(lines[0]);
    var startIndex := if cols.hasHeader then 1 else 0;
    data := ScanRows(lines, cols, startIndex, dateParse, toNumber);
  }

  /** `parseDelimitedGps`'s line loop from `startIndex`. */
  method ScanRows(lines: seq<string>, cols: Columns, startIndex: nat, dateParse: string -> Num, toNumber: string -> Num)
    returns (data: seq<ParsedGpsPoint>)
    requires startIndex <= |lines|
    ensures data == Kept(RowResults(lines, cols, dateParse, toNumber), startIndex, |lines|)
  {
    ghost var results := RowResults(lines, cols, dateParse, toNumber);
    data := [];
    var i := startIndex;
    while i < |lines|
      invariant startIndex <= i <= |lines|
      invariant data == Kept(results, startIndex, i)
    {
      var point := ParseLine(lines[i], cols, dateParse, toNumber);
      RowResultAt(lines, cols, dateParse, toNumber, i);
      KeepStep(results, startIndex, i, data, point);
      if point.None? {
        i := i + 1;
        continue;
      }
      data := data + [point.value];
      i := i + 1;
    }
  }

  /** A file without non-blank lines yields no points, and no file yields
      more points than it has data lines. */
  lemma DelimitedGpsSize(text: string, dateParse: string -> Num, toNumber: string -> Num)
    ensures Lines(text) == [] ==> DelimitedGps(text, dateParse, toNumber) == []
    ensures Lines(text) != [] && DetectColumns(Lines(text)[0]).hasHeader ==>
              |DelimitedGps(text, dateParse, toNumber)| <= |Lines(text)| - 1
    ensures |DelimitedGps(text, dateParse, toNumber)| <= |Lines(text)|
  {
  }

  /** Every point comes from a data line (not the header) that parses to
      it. */
  lemma PointsComeFromDataLines(text: string, dateParse: string -> Num, toNumber: string -> Num, k: nat)
    requires k < |DelimitedGps(text, dateParse, toNumber)|
    ensures Lines(text) != []
    ensures var start := if DetectColumns(Lines(text)[0]).hasHeader then 1 else 0;
            exists i :: start <= i < |Lines(text)|
              && ParseRow(Lines(text)[i], DetectColumns(Lines(text)[0]), dateParse, toNumber)
                 == Some(DelimitedGps(text, dateParse, toNumber)[k])
  {
    var lines := Lines(text);
    var cols := DetectColumns(lines[0]);
    var start := if cols.hasHeader then 1 else 0;
    var results := RowResults(lines, cols, dateParse, toNumber);
    KeptOrigin(results, start, |lines|, k);
    var j :| start <= j < |lines| && results[j] == Some(Kept(results, start, |lines|)[k]);
    RowResultAt(lines, cols, dateParse, toNumber, j);
  }

  /** Every parsed point has numeric latitude and longitude. */
  lemma PointsHaveNumericCoordinates(text: string, dateParse: string -> Num, toNumber: string -> Num, k: nat)
    requires k < |DelimitedGps(text, dateParse, toNumber)|
    ensures !DelimitedGps(text, dateParse, toNumber)[k].latitude.NaN?
    ensures !DelimitedGps(text, dateParse, toNumber)[k].longitude.NaN?
  {
    PointsComeFromDataLines(text, dateParse, toNumber, k);
    var lines := Lines(text);
    var i :| 0 <= i < |lines|
      && ParseRow(lines[i], DetectColumns(lines[0]), dateParse, toNumber) == Some(DelimitedGps(text, dateParse, toNumber)[k]);
  }

  /** Data tokens are never empty. */
  lemma {:induction false} NonBlankHasNoEmpty(pieces: seq<string>)
    ensures forall k :: 0 <= k < |NonBlank(pieces)| ==> NonBlank(pieces)[k] != []
  {
    if pieces != [] {
      NonBlankHasNoEmpty(pieces[1..]);
    }
  }

  /** A header line that starts with ',' or ';' has an empty first token,
      while data lines drop theirs: the header's positions are then shifted
      by one against the data tokens, so latitude and longitude are read
      from the column after the intended one. */
  lemma LeadingSeparatorShiftsColumns(first: string, line: string)
    requires first != [] && (first[0] == ',' || first[0] == ';')
    ensures HeaderTokens(first)[0] == []
    ensures DetectColumns(first).hasHeader ==> DetectColumns(first).lat >= 1 && DetectColumns(first).lon >= 1
    ensures forall k :: 0 <= k < |RowTokens(line)| ==> RowTokens(line)[k] != []
  {
    var lower := ToLower(first);
    assert lower[0] == first[0];
    assert FirstSeparator(lower) == 0;
    assert HeaderTokens(first)[0] == lower[..0];
    NotContainsMissingChar([], "lat", 'l');
    NotContainsMissingChar([], "lon", 'l');
    NonBlankHasNoEmpty(TrimAll(SplitTokens(line)));
  }

  // ---------------------------------------------------------------------------
  // Overall severity in handleAnalyze

  /** A pothole as returned by the analysis server: its `severity` when that
      is a string, and its confidence (an absent confidence reads as 0). */
  datatype ClientDetection = ClientDetection(severity: Option<string>, confidence: Num)

  function Severities(ds: seq<ClientDetection>): (r: seq<string>)
    ensures forall s :: s in r <==> exists k :: 0 <= k < |ds| && ds[k].severity == Some(s)
  {
    if ds == [] then []
    else
      var rest := Severities(ds[1..]);
      assert forall k :: 1 <= k < |ds| ==> ds[k] == ds[1..][k - 1];
      (if ds[0].severity.Some? then [ds[0].severity.value] else []) + rest
  }

  predicate SomeEqualsIgnoringCase(ss: seq<string>, word: string) {
    exists k :: 0 <= k < |ss| && ToLower(ss[k]) == word
  }

  /** `p.confidence || 0`. */
  function OrZero(n: Num): Num {
    if n.NaN? || n == Finite(0.0) then Finite(0.0) else n
  }

  /** `Math.max(...)` of the confidences (none of which is NaN). */
  function MaxConfidence(ds: seq<ClientDetection>): (m: Num)
    requires ds != []
    ensures !m.NaN?
    ensures forall k :: 0 <= k < |ds| ==> !Lt(m, OrZero(ds[k].confidence))
    ensures exists k :: 0 <= k < |ds| && m == OrZero(ds[k].confidence)
  {
    if |ds| == 1 then OrZero(ds[0].confidence)
    else
      var m := MaxConfidence(ds[..|ds| - 1]);
      assert forall k :: 0 <= k < |ds| - 1 ==> ds[..|ds| - 1][k] == ds[k];
      var last := OrZero(ds[|ds| - 1].confidence);
      if Lt(m, last) then last else m
  }

  /** The severity the page computes itself: "none" without detections;
      otherwise from the severity strings when there are any (compared
      case-insensitively), else from the highest confidence with the
      server's 0.77 and 0.50 thresholds. It is never "low". */
  function ClientOverall(ds: seq<ClientDetection>): (r: string)
    ensures r in ["high", "medium", "none"]
    ensures ds == [] ==> r == "none"
    ensures ds != [] && Severities(ds) != [] ==>
              && (r == "high" <==> SomeEqualsIgnoringCase(Severities(ds), "high"))
              && (r == "medium" <==> !SomeEqualsIgnoringCase(Severities(ds), "high")
                                     && SomeEqualsIgnoringCase(Severities(ds), "medium"))
    ensures ds != [] && Severities(ds) == [] ==>
              && (r == "high" <==> Ge(MaxConfidence(ds), 0.77))
              && (r == "medium" <==> !Ge(MaxConfidence(ds), 0.77) && Ge(MaxConfidence(ds), 0.50))
  {
    if ds == [] then "none"
    else
      var severities := Severities(ds);
      if severities != [] then
        if SomeEqualsIgnoringCase(severities, "high") then "high"
        else if SomeEqualsIgnoringCase(severities, "medium") then "medium"
        else "none"
      else
        var maxConfidence := MaxConfidence(ds);
        if Ge(maxConfidence, 0.77) then "high"
        else if Ge(maxConfidence, 0.50) then "medium"
        else "none"
  }

  /** `result.severity || overallSeverity`, with `overallSeverity` assigned
      branch by branch as in `handleAnalyze`. */
  method AnalyzeSeverity(serverSeverity: Option<string>, detections: seq<ClientDetection>) returns (severity: string)
    ensures serverSeverity.Some? && serverSeverity.value != "" ==> severity == serverSeverity.value
    ensures !(serverSeverity.Some? && serverSeverity.value != "") ==> severity == ClientOverall(detections)
  {
    var overallSeverity := "none";
    if |detections| > 0 {
      var severities := Severities(detections);
      if |severities| > 0 {
        if SomeEqualsIgnoringCase(severities, "high") {
          overallSeverity := "high";
        } else if SomeEqualsIgnoringCase(severities, "medium") {
          overallSeverity := "medium";
        } else {
          overallSeverity := "none";
        }
      } else {
        var maxConfidence := MaxConfidence(detections);
        if Ge(maxConfidence, 0.77) {
          overallSeverity := "high";
        } else if Ge(maxConfidence, 0.50) {
          overallSeverity := "medium";
        } else {
          overallSeverity := "none";
        }
      }
    }
    severity := if serverSeverity.Some? && serverSeverity.value != "" then serverSeverity.value else overallSeverity;
  }

  /** The server's potholes as the page receives them: each with the grade
      the server gave it. */
  function AsReceived(ds: seq<Detection>): (r: seq<ClientDetection>)
    ensures |r| == |ds|
    ensures forall k :: 0 <= k < |ds| ==>
              r[k] == ClientDetection(Some(SeverityClassifier.ClassifySeverity(ds[k].confidence)), Finite(ds[k].confidence))
  {
    seq(|ds|, k requires 0 <= k < |ds| =>
      ClientDetection(Some(SeverityClassifier.ClassifySeverity(ds[k].confidence)), Finite(ds[k].confidence)))
  }

  /** The page sees exactly the server's grades, in order. */
  lemma {:induction false} SeveritiesOfReceived(ds: seq<Detection>)
    ensures Severities(AsReceived(ds)) == SeverityClassifier.Grades(ds)
  {
    if ds != [] {
      var r := AsReceived(ds);
      var first := SeverityClassifier.ClassifySeverity(ds[0].confidence);
      SeveritiesOfReceived(ds[1..]);
      assert r[1..] == AsReceived(ds[1..]);
      assert r[0].severity == Some(first);
      assert Severities(r) == [first] + Severities(r[1..]);
      assert SeverityClassifier.Grades(ds) == [first] + SeverityClassifier.Grades(ds[1..]);
    }
  }

  /** The server's grades are already lower case, so comparing them
      case-insensitively is plain membership. */
  lemma GradesIgnoringCase(ds: seq<Detection>, word: string)
    ensures SomeEqualsIgnoringCase(SeverityClassifier.Grades(ds), word) <==> word in SeverityClassifier.Grades(ds)
  {
    var grades := SeverityClassifier.Grades(ds);
    assert ToLower("high") == "high" && ToLower("medium") == "medium" && ToLower("low") == "low";
    assert forall k :: 0 <= k < |grades| ==> ToLower(grades[k]) == grades[k];
  }

  /** On the server's own graded potholes the page agrees with the server's
      overall severity, except that the server's "low" becomes "none". */
  lemma ClientAgreesWithServer(ds: seq<Detection>)
    ensures var server := SeverityClassifier.OverallSeverity(SeverityClassifier.Grades(ds));
            ClientOverall(AsReceived(ds)) == if server == "low" then "none" else server
  {
    if ds != [] {
      SeveritiesOfReceived(ds);
      GradesIgnoringCase(ds, "high");
      GradesIgnoringCase(ds, "medium");
    }
  }
}
