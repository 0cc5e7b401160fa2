/** The two line-oriented parsers that take the language model's review
    apart: `parse_review_sections` cuts it into sections under "**Name:**"
    headers, and `parse_bullet_points` groups a section's lines into
    numbered or bulleted points.  Both are loops over the '\n'-separated
    lines; each is specified by a scan over the lines, and the lemmas below
    say what the scans compute. */
module ReviewParser {
  import opened Common
  import opened Text

  function Lines(text: string): (lines: seq<string>)
    ensures |lines| >= 1
  {
    Split(text, "\n")
  }

  /** The lines the loops look at: every line of the text, stripped. */
  function StrippedLines(text: string): (lines: seq<string>)
    ensures |lines| == |Lines(text)|
  {
    StripAll(Lines(text))
  }

  // ---------------------------------------------------------------------
  // Sections
  // ---------------------------------------------------------------------

  /** A stripped line that opens a section: "**" at the start and ":**" at
      the end. */
  predicate IsHeader(line: string)
  {
    StartsWith(line, "**") && EndsWith(line, ":**")
  }

  /** The section name: the header with every leading and trailing '*' and
      ':' removed (`line.strip('*:')`). */
  function HeaderName(line: string): (name: string)
    ensures |name| <= |line|
  {
    StripChars(line, {'*', ':'})
  }

  /** The section name neither starts nor ends with '*' or ':', and what
      was cut from either end of the header is made of them. */
  lemma HeaderNameTrimmed(line: string)
    ensures var name := HeaderName(line);
            && (name == [] || (name[0] !in {'*', ':'} && name[|name| - 1] !in {'*', ':'}))
            && exists i, j :: 0 <= i <= j <= |line| && name == line[i..j]
                              && (forall k :: 0 <= k < i ==> line[k] in {'*', ':'})
                              && (forall k :: j <= k < |line| ==> line[k] in {'*', ':'})
  {
    StripCharsMiddle(line, {'*', ':'});
  }

  /** The stripped line `line` is a header naming `name`. */
  predicate NamedHeader(line: string, name: string)
  {
    IsHeader(line) && HeaderName(line) == name
  }

  /** The loop state: the sections so far, the section being collected
      (`None` before the first header) and its lines so far. */
  datatype SectionState = SectionState(sections: map<string, string>, current: Option<string>, body: seq<string>)

  const InitialSections := SectionState(map[], None, [])

  /** Store the section being collected, unless there is none or its name is
      empty (an empty string is false in Python). */
  function FlushSection(st: SectionState): (sections: map<string, string>)
    ensures sections.Keys == st.sections.Keys + (if st.current.Some? && st.current.value != "" then {st.current.value} else {})
  {
    if st.current.Some? && st.current.value != "" then
      st.sections[st.current.value := Join(st.body, "\n")]
    else
      st.sections
  }

  /** One iteration of the loop, on a stripped line. */
  function SectionStep(st: SectionState, line: string): SectionState
  {
    if line == [] then st
    else if IsHeader(line) then SectionState(FlushSection(st), Some(HeaderName(line)), [])
    else st.(body := st.body + [line])
  }

  function ScanSections(lines: seq<string>, st: SectionState): SectionState
    decreases |lines|
  {
    if lines == [] then st else ScanSections(lines[1..], SectionStep(st, lines[0]))
  }

  /** What `parse_review_sections` returns. */
  function ParsedSections(text: string): map<string, string>
  {
    FlushSection(ScanSections(StrippedLines(text), InitialSections))
  }

  /** `parse_review_sections`. */
  method ParseReviewSections(reviewText: string) returns (sections: map<string, string>)
    ensures sections == ParsedSections(reviewText)
  {
    var lines := Lines(reviewText);
    ghost var stripped := StripAll(lines);
    sections := map[];
    var currentSection: Option<string> := None;
    var currentText: seq<string> := [];
    var i := 0;
    while i < |lines|
      invariant 0 <= i <= |lines|
      invariant ScanSections(stripped[..i], InitialSections) == SectionState(sections, currentSection, currentText)
    {
      ghost var st := SectionState(sections, currentSection, currentText);
      ScanSectionsSnoc(stripped, i, InitialSections);
      var line := Strip(lines[i]);
      assert line == stripped[i];
      if line != [] {
        if IsHeader(line) {
          sections := FlushSection(SectionState(sections, currentSection, currentText));
          currentSection := Some(HeaderName(line));
          currentText := [];
        } else {
          currentText := currentText + [line];
        }
      }
      assert SectionStep(st, line) == SectionState(sections, currentSection, currentText);
      i := i + 1;
    }
    assert stripped[..i] == stripped;
    sections := FlushSection(SectionState(sections, currentSection, currentText));
  }

  lemma ScanSectionsStep(lines: seq<string>, i: nat, st: SectionState)
    requires i < |lines|
    ensures ScanSections(lines[i..], st) == ScanSections(lines[i + 1..], SectionStep(st, lines[i]))
  {
    assert lines[i..][1..] == lines[i + 1..];
  }

  /** Scanning one more line is one more step. */
  lemma ScanSectionsSnoc(lines: seq<string>, i: nat, st: SectionState)
    requires i < |lines|
    ensures ScanSections(lines[..i + 1], st) == SectionStep(ScanSections(lines[..i], st), lines[i])
  {
    var prefix := lines[..i + 1];
    ScanSectionsSplit(prefix, i, st);
    assert prefix[..i] == lines[..i];
    assert prefix[i..] == [lines[i]];
    assert [lines[i]][1..] == [];
  }

  /** The non-blank lines of `lines` up to the first header. */
  function Body(lines: seq<string>): seq<string>
    decreases |lines|
  {
    if lines == [] then []
    else
      var line := lines[0];
      if line == [] then Body(lines[1..])
      else if IsHeader(line) then []
      else [line] + Body(lines[1..])
  }

  /** Scanning in two parts is scanning the whole. */
  lemma {:induction false} ScanSectionsSplit(lines: seq<string>, i: nat, st: SectionState)
    requires i <= |lines|
    ensures ScanSections(lines, st) == ScanSections(lines[i..], ScanSections(lines[..i], st))
    decreases i
  {
    if i > 0 {
      var rest := lines[1..];
      var next := SectionStep(st, lines[0]);
      ScanSectionsSplit(rest, i - 1, next);
      assert ScanSections(lines, st) == ScanSections(rest, next);
      assert lines[..i][0] == lines[0] && lines[..i][1..] == rest[..i - 1];
      assert ScanSections(lines[..i], st) == ScanSections(rest[..i - 1], next);
      assert rest[i - 1..] == lines[i..];
    }
  }

  /** A stored section keeps its text while no header of that name comes. */
  lemma {:induction false} SectionPersists(lines: seq<string>, st: SectionState, k: string)
    requires k in st.sections && st.current != Some(k)
    requires forall j :: 0 <= j < |lines| ==> !NamedHeader(lines[j], k)
    ensures var fin := ScanSections(lines, st);
            k in fin.sections && fin.sections[k] == st.sections[k] && fin.current != Some(k)
    decreases |lines|
  {
    if lines != [] {
      assert !NamedHeader(lines[0], k);
      SectionPersists(lines[1..], SectionStep(st, lines[0]), k);
    }
  }

  /** Flushing leaves alone every section but the one being collected. */
  lemma FlushKeeps(st: SectionState, k: string)
    requires k in st.sections && st.current != Some(k)
    ensures k in FlushSection(st) && FlushSection(st)[k] == st.sections[k]
  {
  }

  /** The section being collected under name `k` ends up holding its lines
      so far followed by the body that comes next. */
  lemma {:induction false} SectionCollects(lines: seq<string>, st: SectionState, k: string)
    requires st.current == Some(k) && k != ""
    requires forall j :: 0 <= j < |lines| ==> !NamedHeader(lines[j], k)
    ensures var out := FlushSection(ScanSections(lines, st));
            k in out && out[k] == Join(st.body + Body(lines), "\n")
    decreases |lines|
  {
    if lines == [] {
      assert st.body + [] == st.body;
    } else {
      var line := lines[0];
      var next := SectionStep(st, lines[0]);
      assert ScanSections(lines, st) == ScanSections(lines[1..], next);
      assert forall j :: 0 <= j < |lines[1..]| ==> !NamedHeader(lines[1..][j], k) by {
        assert forall j :: 0 <= j < |lines[1..]| ==> lines[1..][j] == lines[j + 1];
      }
      if line == [] {
        assert Body(lines) == Body(lines[1..]);
        assert next == st;
        SectionCollects(lines[1..], next, k);
      } else if IsHeader(line) {
        assert !NamedHeader(lines[0], k);
        assert Body(lines) == [];
        assert st.body + Body(lines) == st.body;
        assert next.sections == FlushSection(st);
        assert next.current == Some(HeaderName(line)) != Some(k);
        SectionPersists(lines[1..], next, k);
        FlushKeeps(ScanSections(lines[1..], next), k);
      } else {
        assert Body(lines) == [line] + Body(lines[1..]);
        assert next == st.(body := st.body + [line]);
        SectionCollects(lines[1..], next, k);
        assert st.body + Body(lines) == (st.body + [line]) + Body(lines[1..]);
      }
    }
  }

  /** The last header with a non-empty name `k` decides the section: its
      text is the following non-blank lines, stripped and joined by '\n', up
      to the next header.  Earlier sections of the same name are overwritten
      and lines before the first header belong to no section. */
  lemma LastHeaderWins(text: string, i: nat, k: string)
    requires i < |StrippedLines(text)| && NamedHeader(StrippedLines(text)[i], k) && k != ""
    requires forall j :: i < j < |StrippedLines(text)| ==> !NamedHeader(StrippedLines(text)[j], k)
    ensures k in ParsedSections(text)
    ensures ParsedSections(text)[k] == Join(Body(StrippedLines(text)[i + 1..]), "\n")
  {
    SectionOfLastHeader(StrippedLines(text), i, k);
  }

  /** `LastHeaderWins` on any sequence of stripped lines. */
  lemma SectionOfLastHeader(lines: seq<string>, i: nat, k: string)
    requires i < |lines| && NamedHeader(lines[i], k) && k != ""
    requires forall j :: i < j < |lines| ==> !NamedHeader(lines[j], k)
    ensures var out := FlushSection(ScanSections(lines, InitialSections));
            k in out && out[k] == Join(Body(lines[i + 1..]), "\n")
  {
    ScanSectionsSplit(lines, i, InitialSections);
    var before := ScanSections(lines[..i], InitialSections);
    ScanSectionsStep(lines, i, before);
    var after := SectionStep(before, lines[i]);
    assert after == SectionState(FlushSection(before), Some(k), []);
    var rest := lines[i + 1..];
    assert forall j :: 0 <= j < |rest| ==> !NamedHeader(rest[j], k) by {
      assert forall j :: 0 <= j < |rest| ==> rest[j] == lines[i + 1 + j];
    }
    SectionCollects(rest, after, k);
    assert [] + Body(rest) == Body(rest);
  }

  /** Every section name comes from a header line with that name. */
  lemma {:induction false} SectionNamesFromHeaders(lines: seq<string>, st: SectionState, k: string)
    requires k in FlushSection(ScanSections(lines, st))
    ensures k in FlushSection(st) || (k != "" && exists j :: 0 <= j < |lines| && NamedHeader(lines[j], k))
    decreases |lines|
  {
    if lines != [] {
      var next := SectionStep(st, lines[0]);
      SectionNamesFromHeaders(lines[1..], next, k);
      if k !in FlushSection(next) {
        var j :| 0 <= j < |lines[1..]| && NamedHeader(lines[1..][j], k);
        assert NamedHeader(lines[j + 1], k);
      }
    }
  }

  lemma {:induction false} LastNamedHeader(lines: seq<string>, k: string, i: nat)
    requires i < |lines| && NamedHeader(lines[i], k)
    ensures exists m :: i <= m < |lines| && NamedHeader(lines[m], k)
                        && forall j :: m < j < |lines| ==> !NamedHeader(lines[j], k)
    decreases |lines| - i
  {
    if j :| i < j < |lines| && NamedHeader(lines[j], k) {
      LastNamedHeader(lines, k, j);
    }
  }

  /** The section names are exactly the non-empty names of the header lines. */
  lemma SectionKeys(text: string, k: string)
    ensures k in ParsedSections(text)
        <==> k != "" && exists i :: 0 <= i < |StrippedLines(text)| && NamedHeader(StrippedLines(text)[i], k)
  {
    var lines := StrippedLines(text);
    if k in ParsedSections(text) {
      SectionNamesFromHeaders(lines, InitialSections, k);
    }
    if k != "" && exists i :: 0 <= i < |lines| && NamedHeader(lines[i], k) {
      var i :| 0 <= i < |lines| && NamedHeader(lines[i], k);
      LastNamedHeader(lines, k, i);
      var m :| i <= m < |lines| && NamedHeader(lines[m], k)
               && forall j :: m < j < |lines| ==> !NamedHeader(lines[j], k);
      LastHeaderWins(text, m, k);
    }
  }

  /** A text without a header line has no sections. */
  lemma NoHeaderNoSections(text: string)
    requires forall i :: 0 <= i < |StrippedLines(text)| ==> !IsHeader(StrippedLines(text)[i])
    ensures ParsedSections(text) == map[]
  {
    forall k | k in ParsedSections(text) ensures false {
      SectionKeys(text, k);
    }
  }

  /** Lines without a header store nothing and open no section. */
  lemma {:induction false} HeaderlessKeepsState(lines: seq<string>, st: SectionState)
    requires forall j :: 0 <= j < |lines| ==> !IsHeader(lines[j])
    ensures ScanSections(lines, st).sections == st.sections
    ensures ScanSections(lines, st).current == st.current
    decreases |lines|
  {
    if lines != [] {
      assert !IsHeader(lines[0]);
      assert forall j :: 0 <= j < |lines[1..]| ==> lines[1..][j] == lines[j + 1];
      HeaderlessKeepsState(lines[1..], SectionStep(st, lines[0]));
    }
  }

  /** Lines before the first header belong to no section: parsing the text
      is parsing it from its first header on. */
  lemma PreambleDropped(text: string, f: nat)
    requires f < |StrippedLines(text)| && IsHeader(StrippedLines(text)[f])
    requires forall j :: 0 <= j < f ==> !IsHeader(StrippedLines(text)[j])
    ensures ParsedSections(text) == FlushSection(ScanSections(StrippedLines(text)[f..], InitialSections))
  {
    var lines := StrippedLines(text);
    var before := ScanSections(lines[..f], InitialSections);
    HeaderlessKeepsState(lines[..f], InitialSections);
    ScanSectionsSplit(lines, f, InitialSections);
    ScanSectionsStep(lines, f, before);
    ScanSectionsStep(lines, f, InitialSections);
    assert SectionStep(before, lines[f]) == SectionStep(InitialSections, lines[f]);
  }

  // ---------------------------------------------------------------------
  // Bullet points
  // ---------------------------------------------------------------------

  /** A stripped line whose only character is a digit: the source reads its
      second character and raises IndexError. */
  predicate IsLoneDigit(line: string)
  {
    |line| == 1 && IsDigit(line[0])
  }

  /** A stripped, non-blank line that opens a new point: a digit followed
      by '.', or a '•' at the start. */
  predicate IsMarker(line: string)
  {
    (|line| >= 2 && IsDigit(line[0]) && line[1] == '.') || StartsWith(line, "\U{2022}")
  }

  /** The text a marker line contributes: what follows its first '.',
      stripped, or the whole line when it has no '.'. */
  function PointText(line: string): (text: string)
    ensures |text| <= |line|
  {
    match FindFrom(line, ".", 0)
    case None => Strip(line)
    case Some(k) => Strip(line[k + 1..])
  }

  /** The loop state: the finished points and the lines of the open one. */
  datatype BulletState = BulletState(points: seq<string>, current: seq<string>)

  const InitialBullets := BulletState([], [])

  /** Close the open point, if any. */
  function FlushPoint(st: BulletState): (points: seq<string>)
    ensures |points| == |st.points| + (if st.current != [] then 1 else 0)
  {
    if st.current != [] then st.points + [Join(st.current, " ")] else st.points
  }

  /** One iteration of the loop, on a stripped line. */
  function BulletStep(st: BulletState, line: string): Attempt<BulletState>
  {
    if line == [] then Returned(st)
    else if IsLoneDigit(line) then Raised
    else if IsMarker(line) then Returned(BulletState(FlushPoint(st), [PointText(line)]))
    else Returned(st.(current := st.current + [line]))
  }

  function ScanBullets(lines: seq<string>, st: BulletState): Attempt<BulletState>
    decreases |lines|
  {
    if lines == [] then Returned(st)
    else match BulletStep(st, lines[0])
      case Raised => Raised
      case Returned(next) => ScanBullets(lines[1..], next)
  }

  /** What `parse_bullet_points` returns, or `Raised` for its IndexError. */
  function ParsedBullets(text: string): Attempt<seq<string>>
  {
    match ScanBullets(StrippedLines(text), InitialBullets)
    case Raised => Raised
    case Returned(st) => Returned(FlushPoint(st))
  }

  lemma ScanBulletsStep(lines: seq<string>, i: nat, st: BulletState)
    requires i < |lines|
    ensures ScanBullets(lines[i..], st)
         == match BulletStep(st, lines[i])
            case Raised => Raised
            case Returned(next) => ScanBullets(lines[i + 1..], next)
  {
    assert lines[i..][1..] == lines[i + 1..];
  }

  /** `parse_bullet_points`. */
  method ParseBulletPoints(text: string) returns (r: Attempt<seq<string>>)
    ensures r == ParsedBullets(text)
  {
    var lines := Lines(text);
    ghost var stripped := StripAll(lines);
    var points: seq<string> := [];
    var currentPoint: seq<string> := [];
    var i := 0;
    while i < |lines|
      invariant 0 <= i <= |lines|
      invariant ScanBullets(stripped[i..], BulletState(points, currentPoint)) == ScanBullets(stripped, InitialBullets)
    {
      ghost var st := BulletState(points, currentPoint);
      ScanBulletsStep(stripped, i, st);
      var line := Strip(lines[i]);
      assert line == stripped[i];
      if line != [] {
        if IsDigit(line[0]) && |line| == 1 {
          assert IsLoneDigit(line);
          return Raised;
        }
        assert !IsLoneDigit(line);
        if (IsDigit(line[0]) && line[1] == '.') || StartsWith(line, "\U{2022}") {
          assert IsMarker(line);
          if currentPoint != [] {
            points := points + [Join(currentPoint, " ")];
          }
          currentPoint := [PointText(line)];
          assert points == FlushPoint(st);
        } else {
          assert !IsMarker(line);
          currentPoint := currentPoint + [line];
        }
      }
      assert BulletStep(st, line) == Returned(BulletState(points, currentPoint));
      i := i + 1;
    }
    assert stripped[i..] == [];
    if currentPoint != [] {
      points := points + [Join(currentPoint, " ")];
    }
    return Returned(points);
  }

  /** Parsing fails exactly when some line, stripped, is a single digit. */
  lemma {:induction false} ScanRaisesIff(lines: seq<string>, st: BulletState)
    ensures ScanBullets(lines, st).Raised?
        <==> exists i :: 0 <= i < |lines| && IsLoneDigit(lines[i])
    decreases |lines|
  {
    if lines != [] {
      var step := BulletStep(st, lines[0]);
      if step.Returned? {
        ScanRaisesIff(lines[1..], step.value);
        if i :| 0 <= i < |lines| && IsLoneDigit(lines[i]) {
          assert i > 0 && IsLoneDigit(lines[1..][i - 1]);
        }
        if i :| 0 <= i < |lines[1..]| && IsLoneDigit(lines[1..][i]) {
          assert IsLoneDigit(lines[i + 1]);
        }
      }
    }
  }

  lemma BulletsRaiseIff(text: string)
    ensures ParsedBullets(text).Raised?
        <==> exists i :: 0 <= i < |StrippedLines(text)| && IsLoneDigit(StrippedLines(text)[i])
  {
    ScanRaisesIff(StrippedLines(text), InitialBullets);
  }

  /** The number of marker lines. */
  function MarkerCount(lines: seq<string>): nat
    decreases |lines|
  {
    if lines == [] then 0
    else (if IsMarker(lines[0]) then 1 else 0) + MarkerCount(lines[1..])
  }

  /** The number of non-blank lines. */
  function NonBlankCount(lines: seq<string>): nat
    decreases |lines|
  {
    if lines == [] then 0
    else (if lines[0] != [] then 1 else 0) + NonBlankCount(lines[1..])
  }

  /** The first non-blank line exists and opens no point: the lines up to
      the first marker then form a point of their own. */
  predicate LeadingPlain(lines: seq<string>)
    decreases |lines|
  {
    lines != [] &&
    if lines[0] == [] then LeadingPlain(lines[1..]) else !IsMarker(lines[0])
  }

  /** Each marker line opens one point, the open point (or, without one,
      the lines before the first marker) makes one more. */
  lemma {:induction false} ScanCount(lines: seq<string>, st: BulletState)
    requires ScanBullets(lines, st).Returned?
    ensures |FlushPoint(ScanBullets(lines, st).value)|
         == |st.points| + MarkerCount(lines) + (if st.current != [] || LeadingPlain(lines) then 1 else 0)
    decreases |lines|
  {
    if lines != [] {
      var next := BulletStep(st, lines[0]).value;
      ScanCount(lines[1..], next);
    }
  }

  lemma {:induction false} MarkersBound(lines: seq<string>)
    ensures MarkerCount(lines) <= NonBlankCount(lines)
    decreases |lines|
  {
    if lines != [] {
      MarkersBound(lines[1..]);
    }
  }

  lemma {:induction false} MarkersAndLeadingBound(lines: seq<string>)
    ensures MarkerCount(lines) + (if LeadingPlain(lines) then 1 else 0) <= NonBlankCount(lines)
    decreases |lines|
  {
    if lines != [] {
      MarkersAndLeadingBound(lines[1..]);
      MarkersBound(lines[1..]);
    }
  }

  /** The points are the marker lines plus one for any lines before the
      first marker, so they never outnumber the non-blank lines. */
  lemma BulletCount(text: string)
    requires ParsedBullets(text).Returned?
    ensures |ParsedBullets(text).value|
         == MarkerCount(StrippedLines(text)) + (if LeadingPlain(StrippedLines(text)) then 1 else 0)
    ensures |ParsedBullets(text).value| <= NonBlankCount(StrippedLines(text))
  {
    ScanCount(StrippedLines(text), InitialBullets);
    MarkersAndLeadingBound(StrippedLines(text));
  }

  /** The non-blank lines, in order. */
  function NonBlankLines(lines: seq<string>): seq<string>
    decreases |lines|
  {
    if lines == [] then []
    else (if lines[0] != [] then [lines[0]] else []) + NonBlankLines(lines[1..])
  }

  /** Without a marker line and a lone digit, the open point collects every
      non-blank line. */
  lemma {:induction false} PlainLinesJoin(lines: seq<string>, st: BulletState)
    requires forall i :: 0 <= i < |lines| ==> !IsMarker(lines[i]) && !IsLoneDigit(lines[i])
    ensures ScanBullets(lines, st) == Returned(st.(current := st.current + NonBlankLines(lines)))
    decreases |lines|
  {
    if lines == [] {
      assert st.current + [] == st.current;
    } else {
      var head := if lines[0] != [] then [lines[0]] else [];
      var next := st.(current := st.current + head);
      assert !IsMarker(lines[0]) && !IsLoneDigit(lines[0]);
      assert st.current + [] == st.current;
      assert BulletStep(st, lines[0]) == Returned(next);
      assert ScanBullets(lines, st) == ScanBullets(lines[1..], next);
      PlainLinesJoin(lines[1..], next);
      assert NonBlankLines(lines) == head + NonBlankLines(lines[1..]);
      assert (st.current + head) + NonBlankLines(lines[1..]) == st.current + NonBlankLines(lines);
    }
  }

  /** A text without markers is one point: its non-blank lines, stripped and
      joined by single spaces (and no point at all if every line is blank). */
  lemma UnmarkedTextIsOnePoint(text: string)
    requires forall i :: 0 <= i < |StrippedLines(text)| ==> !IsMarker(StrippedLines(text)[i]) && !IsLoneDigit(StrippedLines(text)[i])
    ensures NonBlankLines(StrippedLines(text)) == [] ==> ParsedBullets(text) == Returned([])
    ensures NonBlankLines(StrippedLines(text)) != [] ==> ParsedBullets(text) == Returned([Join(NonBlankLines(StrippedLines(text)), " ")])
  {
    UnmarkedLinesOnePoint(StrippedLines(text));
  }

  lemma UnmarkedLinesOnePoint(lines: seq<string>)
    requires forall i :: 0 <= i < |lines| ==> !IsMarker(lines[i]) && !IsLoneDigit(lines[i])
    ensures var body := NonBlankLines(lines);
            ScanBullets(lines, InitialBullets) == Returned(BulletState([], body))
            && FlushPoint(BulletState([], body)) == (if body == [] then [] else [Join(body, " ")])
  {
    var body := NonBlankLines(lines);
    PlainLinesJoin(lines, InitialBullets);
    assert [] + body == body;
  }
}
