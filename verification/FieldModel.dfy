/** What an officer captures, and the batch item made of it: frontend/src/features/field/model.ts. */
module FieldModel {
  import opened Common

  type Id = nat
  type Instant = int

  /** Text as the browser counts it: UTF-16 code units. */
  type CodeUnit = u: int | 0 <= u < 0x1_0000
  type Text = seq<CodeUnit>

  const MAX_PHOTOS := 5

  datatype Location = Location(latitude: real, longitude: real, accuracyM: real, provider: string, altitudeM: Option<real>)

  datatype ReportType =
    | LANDSLIDE | FLOODING | ROAD_DAMAGE | BRIDGE_COLLAPSE | TREE_FALL | WEATHER_HAZARD | SECURITY_INCIDENT | OTHER

  datatype ReportSeverity = LOW | MEDIUM | HIGH | CRITICAL

  datatype ReportPayload = ReportPayload(
    reportType: Option<ReportType>,
    severity: Option<ReportSeverity>,
    description: Text,
    location: Option<Location>,
    observedAt: Instant,
    candidateEdgeId: Option<string>,
    mediaLocalIds: seq<Id>)

  /** A stored payload is untyped: either it passes isReportPayload or it does not. */
  datatype Payload = Report(report: ReportPayload) | Unreadable

  datatype BatchItem = BatchItem(
    clientOperationId: Id,
    reportType: ReportType,
    severity: ReportSeverity,
    description: Text,
    location: Location,
    observedAt: Instant,
    mediaIds: seq<string>,
    candidateEdgeId: Option<string>)

  /** ECMAScript white space and line terminators. */
  predicate IsSpace(c: CodeUnit) {
    9 <= c <= 13 || c == 32 || c == 160 || c == 0x1680 || 0x2000 <= c <= 0x200a || c == 0x2028 || c == 0x2029
    || c == 0x202f || c == 0x205f || c == 0x3000 || c == 0xfeff
  }

  function Trim(s: Text): Text {
    if s == [] then []
    else if IsSpace(s[0]) then Trim(s[1..])
    else if IsSpace(s[|s| - 1]) then Trim(s[..|s| - 1])
    else s
  }

  lemma Outside(before: Text, after: Text, a: Text, b: Text, c: Text, d: Text)
    requires before == a + b && after == c + d
    requires (forall x :: x in a ==> IsSpace(x)) && (forall x :: x in d ==> IsSpace(x)) && forall x :: x in b + c ==> IsSpace(x)
    ensures forall x :: x in before + after ==> IsSpace(x)
  {
    forall x | x in before + after ensures IsSpace(x) {
      assert x in a || x in d || x in b + c;
    }
  }

  /** What trimming leaves out is white space, and what it leaves starts and ends with none. */
  lemma {:induction false} TrimMeans(s: Text) returns (before: Text, after: Text)
    ensures s == before + Trim(s) + after
    ensures forall c :: c in before + after ==> IsSpace(c)
    ensures Trim(s) != [] ==> !IsSpace(Trim(s)[0]) && !IsSpace(Trim(s)[|Trim(s)| - 1])
    decreases |s|
  {
    before, after := [], [];
    if s == [] {
    } else if IsSpace(s[0]) {
      before, after := TrimMeans(s[1..]);
      Outside([s[0]] + before, after, [s[0]], before, after, []);
      before := [s[0]] + before;
      assert s == [s[0]] + s[1..];
    } else if IsSpace(s[|s| - 1]) {
      before, after := TrimMeans(s[..|s| - 1]);
      Outside(before, after + [s[|s| - 1]], [], before, after, [s[|s| - 1]]);
      after := after + [s[|s| - 1]];
      assert s == s[..|s| - 1] + [s[|s| - 1]];
    }
  }

  predicate IsValidLatLon(lat: real, lon: real) {
    -90.0 <= lat <= 90.0 && -180.0 <= lon <= 180.0
  }

  /** Nothing stands in the way of queueing the report. */
  predicate Sendable(p: ReportPayload) {
    && p.reportType.Some? && p.severity.Some?
    && |Trim(p.description)| >= 3 && |p.description| <= 2000
    && p.location.Some?
    && -90.0 <= p.location.value.latitude <= 90.0 && -180.0 <= p.location.value.longitude <= 180.0
    && 0.0 < p.location.value.accuracyM <= 5000.0
    && |p.mediaLocalIds| <= 5
  }

  /** The problems a report can have, in the order they are listed. */
  datatype Problem =
    | NoType
    | NoSeverity
    | DescriptionTooShort
    | DescriptionTooLong
    | NoLocation
    | CoordinatesInvalid
    | AccuracyOutOfRange
    | TooManyPhotos

  predicate Has(p: ReportPayload, problem: Problem) {
    match problem
    case NoType => p.reportType.None?
    case NoSeverity => p.severity.None?
    case DescriptionTooShort => |Trim(p.description)| < 3
    case DescriptionTooLong => |p.description| > 2000
    case NoLocation => p.location.None?
    case CoordinatesInvalid =>
      p.location.Some? && !IsValidLatLon(p.location.value.latitude, p.location.value.longitude)
    case AccuracyOutOfRange =>
      p.location.Some? && !(0.0 < p.location.value.accuracyM <= 5000.0)
    case TooManyPhotos => |p.mediaLocalIds| > MAX_PHOTOS
  }

  function Rank(x: Problem): nat {
    match x
    case NoType => 0
    case NoSeverity => 1
    case DescriptionTooShort => 2
    case DescriptionTooLong => 3
    case NoLocation => 4
    case CoordinatesInvalid => 5
    case AccuracyOutOfRange => 6
    case TooManyPhotos => 7
  }

  /** The first n kinds of problem have been looked for, and those the report has are listed in order. */
  ghost predicate Listed(p: ReportPayload, problems: seq<Problem>, n: nat) {
    && (forall x :: x in problems <==> Has(p, x) && Rank(x) < n)
    && (forall i, j :: 0 <= i < j < |problems| ==> Rank(problems[i]) < Rank(problems[j]))
  }

  /** One check: the problem is pushed if the report has it. */
  method Note(ghost p: ReportPayload, problems: seq<Problem>, applies: bool, x: Problem) returns (noted: seq<Problem>)
    requires Listed(p, problems, Rank(x)) && (applies <==> Has(p, x))
    ensures Listed(p, noted, Rank(x) + 1)
  {
    noted := problems;
    if applies {
      noted := noted + [x];
    }
    forall y | Rank(y) == Rank(x) ensures y == x {}
  }

  /** The checks on the location, which end at a missing one. */
  method NoteLocation(p: ReportPayload, problems: seq<Problem>) returns (noted: seq<Problem>)
    requires Listed(p, problems, Rank(NoLocation))
    ensures Listed(p, noted, Rank(TooManyPhotos))
  {
    noted := problems;
    if p.location.None? {
      noted := noted + [NoLocation];
    } else {
      var l := p.location.value;
      if !IsValidLatLon(l.latitude, l.longitude) { noted := noted + [CoordinatesInvalid]; }
      if !(l.accuracyM > 0.0) || l.accuracyM > 5000.0 { noted := noted + [AccuracyOutOfRange]; }
    }
  }

  /** Lists exactly the report's problems, in order; none are left exactly when the report can be sent. */
  method ValidatePayload(p: ReportPayload) returns (problems: seq<Problem>)
    ensures forall x :: x in problems <==> Has(p, x)
    ensures forall i, j :: 0 <= i < j < |problems| ==> Rank(problems[i]) < Rank(problems[j])
    ensures problems == [] <==> Sendable(p)
  {
    problems := Note(p, [], p.reportType.None?, NoType);
    problems := Note(p, problems, p.severity.None?, NoSeverity);
    problems := Note(p, problems, |Trim(p.description)| < 3, DescriptionTooShort);
    problems := Note(p, problems, |p.description| > 2000, DescriptionTooLong);
    problems := NoteLocation(p, problems);
    problems := Note(p, problems, |p.mediaLocalIds| > MAX_PHOTOS, TooManyPhotos);
    AllListed(p, problems);
  }

  lemma AllListed(p: ReportPayload, problems: seq<Problem>)
    requires Listed(p, problems, 8)
    ensures forall x :: x in problems <==> Has(p, x)
    ensures problems == [] <==> Sendable(p)
  {
    forall x ensures Rank(x) < 8 {}
    if problems == [] {
      forall x ensures !Has(p, x) {
        assert x !in problems;
      }
    } else {
      assert problems[0] in problems;
    }
    SendableIff(p);
  }

  lemma SendableIff(p: ReportPayload)
    ensures Sendable(p) <==> forall x :: !Has(p, x)
  {
    forall x | Sendable(p) ensures !Has(p, x) {}
    if forall x :: !Has(p, x) {
      assert !Has(p, NoType) && !Has(p, NoSeverity) && !Has(p, DescriptionTooShort) && !Has(p, DescriptionTooLong);
      assert !Has(p, NoLocation) && !Has(p, CoordinatesInvalid) && !Has(p, AccuracyOutOfRange) && !Has(p, TooManyPhotos);
    }
  }

  /** None where the conversion throws on an incomplete payload. */
  function ToBatchItem(id: Id, p: ReportPayload, serverMediaIds: seq<string>): Option<BatchItem> {
    if p.reportType.None? || p.severity.None? || p.location.None? then None
    else
      Some(BatchItem(id, p.reportType.value, p.severity.value, Trim(p.description), p.location.value, p.observedAt,
                     serverMediaIds, if p.candidateEdgeId == Some("") then None else p.candidateEdgeId))
  }

  /** The item says what the report says: each field under its own name, the uploads as the media, the text trimmed. */
  lemma BatchItemSays(id: Id, p: ReportPayload, uploads: seq<string>) returns (before: Text, after: Text)
    ensures ToBatchItem(id, p, uploads).None? <==> p.reportType.None? || p.severity.None? || p.location.None?
    ensures ToBatchItem(id, p, uploads).Some? ==>
              var item := ToBatchItem(id, p, uploads).value;
              && item.clientOperationId == id && item.mediaIds == uploads
              && p.reportType == Some(item.reportType) && p.severity == Some(item.severity)
              && p.location == Some(item.location) && p.observedAt == item.observedAt
              && p.description == before + item.description + after
              && (forall c :: c in before + after ==> IsSpace(c))
              && (item.description != [] ==>
                    !IsSpace(item.description[0]) && !IsSpace(item.description[|item.description| - 1]))
              && (item.candidateEdgeId.Some? ==> item.candidateEdgeId.value != "" && p.candidateEdgeId == item.candidateEdgeId)
              && (item.candidateEdgeId.None? ==> p.candidateEdgeId.None? || p.candidateEdgeId.value == "")
  {
    before, after := TrimMeans(p.description);
  }
}
