/** The sort parameter of list endpoints, backend/app/core/pagination.py: what parsed_sort makes of an accepted string. */
module SortSpec {
  import opened Common
  import opened Text

  datatype Part = Part(field: string, direction: string)

  predicate IsName(s: string) {
    s != "" && forall i :: 0 <= i < |s| ==> 'a' <= s[i] <= 'z' || s[i] == '_'
  }

  predicate IsPart(p: Part) {
    IsName(p.field) && (p.direction == "asc" || p.direction == "desc")
  }

  function Shown(p: Part): string {
    p.field + [':'] + p.direction
  }

  /** One segment as the parameter's pattern admits it: a name, with or without a direction. */
  ghost predicate Admitted(segment: string) {
    IsName(segment) || exists p: Part :: IsPart(p) && segment == Shown(p)
  }

  /** The pattern of the whole parameter: admitted segments with commas between them. */
  ghost predicate Matches(sort: string) {
    exists segments: seq<string> :: Written(sort, segments)
  }

  ghost predicate Written(sort: string, segments: seq<string>) {
    segments != [] && (forall i :: 0 <= i < |segments| ==> Admitted(segments[i])) && sort == Join(segments, ',')
  }

  lemma AdmittedHasNoComma(segment: string)
    requires Admitted(segment)
    ensures ',' !in segment
  {
  }

  /** A string matches the pattern exactly if every piece between commas is admitted. */
  lemma MatchesIff(sort: string)
    ensures Matches(sort) <==> forall i :: 0 <= i < |Split(sort, ',')| ==> Admitted(Split(sort, ',')[i])
  {
    if segments: seq<string> :| Written(sort, segments) {
      forall i | 0 <= i < |segments| ensures ',' !in segments[i] {
        AdmittedHasNoComma(segments[i]);
      }
      SplitJoin(segments, ',');
    }
    JoinSplit(sort, ',');
    if forall i :: 0 <= i < |Split(sort, ',')| ==> Admitted(Split(sort, ',')[i]) {
      assert Written(sort, Split(sort, ','));
    }
  }

  /** The text before and after the first colon. */
  function Cut(s: string): Option<(string, string)> {
    if s == "" then None
    else if s[0] == ':' then Some(("", s[1..]))
    else
      match Cut(s[1..])
      case None => None
      case Some((before, after)) => Some(([s[0]] + before, after))
  }

  /** What str.strip removes: Unicode white space. */
  predicate IsBlank(c: char) {
    var u := c as int;
    9 <= u <= 13 || 28 <= u <= 32 || u == 0x85 || u == 0xa0 || u == 0x1680 || 0x2000 <= u <= 0x200a
    || u == 0x2028 || u == 0x2029 || u == 0x202f || u == 0x205f || u == 0x3000
  }

  function Strip(s: string): string {
    if s == "" then ""
    else if IsBlank(s[0]) then Strip(s[1..])
    else if IsBlank(s[|s| - 1]) then Strip(s[..|s| - 1])
    else s
  }

  /** What stripping leaves out is blank, and what it leaves starts and ends with no blank. */
  lemma {:induction false} StripMeans(s: string) returns (before: string, after: string)
    ensures s == before + Strip(s) + after
    ensures (forall c :: c in before ==> IsBlank(c)) && forall c :: c in after ==> IsBlank(c)
    ensures Strip(s) != "" ==> !IsBlank(Strip(s)[0]) && !IsBlank(Strip(s)[|Strip(s)| - 1])
    decreases |s|
  {
    before, after := "", "";
    if s == "" {
    } else if IsBlank(s[0]) {
      before, after := StripMeans(s[1..]);
      before := [s[0]] + before;
      assert s == [s[0]] + s[1..];
    } else if IsBlank(s[|s| - 1]) {
      before, after := StripMeans(s[..|s| - 1]);
      after := after + [s[|s| - 1]];
      assert s == s[..|s| - 1] + [s[|s| - 1]];
    }
  }

  function ParseSegment(segment: string): Part {
    match Cut(segment)
    case Some((field, direction)) => Part(Strip(field), Strip(direction))
    case None => Part(Strip(segment), Strip("desc"))
  }

  method ParsedSort(sort: string) returns (parts: seq<Part>)
    ensures |parts| == |Split(sort, ',')|
    ensures forall i :: 0 <= i < |parts| ==> parts[i] == ParseSegment(Split(sort, ',')[i])
    ensures Matches(sort) ==> forall i :: 0 <= i < |parts| ==> IsPart(parts[i])
  {
    parts := [];
    var segments := Split(sort, ',');
    for n := 0 to |segments|
      invariant |parts| == n
      invariant forall i :: 0 <= i < n ==> parts[i] == ParseSegment(segments[i])
    {
      var field, direction := segments[n], "desc";
      var cut := Cut(segments[n]);
      if cut.Some? {
        field, direction := cut.value.0, cut.value.1;
      }
      parts := parts + [Part(Strip(field), Strip(direction))];
    }
    if Matches(sort) {
      forall i | 0 <= i < |parts| ensures IsPart(parts[i]) {
        MatchingParses(sort, i);
      }
    }
  }

  lemma {:induction false} CutAt(field: string, rest: string)
    requires ':' !in field
    ensures Cut(field + [':'] + rest) == Some((field, rest))
    ensures Cut(field) == None
    decreases |field|
  {
    if field == "" {
      assert ("" + [':'] + rest)[1..] == rest;
    } else {
      CutAt(field[1..], rest);
      assert (field + [':'] + rest)[1..] == field[1..] + [':'] + rest;
      assert field == [field[0]] + field[1..];
    }
  }

  /** A segment stands for itself, a bare name for that name descending. */
  lemma SegmentMeans(p: Part)
    requires IsPart(p)
    ensures ParseSegment(Shown(p)) == p
    ensures ParseSegment(p.field) == Part(p.field, "desc")
  {
    CutAt(p.field, p.direction);
    assert !IsBlank(p.field[0]) && !IsBlank(p.field[|p.field| - 1]);
  }

  /** Whatever the pattern admits parses into a legal part. */
  lemma AdmittedParses(segment: string)
    requires Admitted(segment)
    ensures IsPart(ParseSegment(segment))
    ensures segment == Shown(ParseSegment(segment)) || ParseSegment(segment) == Part(segment, "desc")
  {
    if IsName(segment) {
      SegmentMeans(Part(segment, "desc"));
    } else {
      var p: Part :| IsPart(p) && segment == Shown(p);
      SegmentMeans(p);
    }
  }

  /** Whatever the pattern of the whole parameter lets through, every part returned is legal and says what was written. */
  lemma MatchingParses(sort: string, i: nat)
    requires Matches(sort) && i < |Split(sort, ',')|
    ensures var segment := Split(sort, ',')[i];
            && IsPart(ParseSegment(segment))
            && (segment == Shown(ParseSegment(segment)) || ParseSegment(segment) == Part(segment, "desc"))
  {
    MatchesIff(sort);
    AdmittedParses(Split(sort, ',')[i]);
  }

  function ShownAll(parts: seq<Part>): seq<string> {
    seq(|parts|, i requires 0 <= i < |parts| => Shown(parts[i]))
  }

  /** A list of parts written out as a sort parameter is read back as that list. */
  lemma SortRoundTrip(parts: seq<Part>)
    requires parts != [] && forall i :: 0 <= i < |parts| ==> IsPart(parts[i])
    ensures var segments := Split(Join(ShownAll(parts), ','), ',');
            |segments| == |parts| && forall i :: 0 <= i < |parts| ==> ParseSegment(segments[i]) == parts[i]
  {
    var all := ShownAll(parts);
    forall i | 0 <= i < |parts| ensures ',' !in all[i] && ParseSegment(all[i]) == parts[i] {
      SegmentMeans(parts[i]);
    }
    SplitJoin(all, ',');
  }
}
