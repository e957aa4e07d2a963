/**
 * What happens to the model's answer after a submit: the order in which an
 * empty answer, an undecodable answer and a record missing its personal
 * information are told apart from one that is rendered, and what `save_pdf`
 * then does with the rendered résumé text.
 */
module Pipeline {
  import opened Wrappers
  import opened Strings
  import opened ResumeText
  import opened PdfLayout

  /** What `json.loads` makes of the answer: a record, or an error message. */
  datatype Json = Parsed(details: Details) | JsonError(message: string)

  /** The end of one submit. */
  datatype Reply =
    | EmptyResponse                              // no answer, or an empty one: nothing is decoded
    | DecodeFailed(message: string, raw: string) // the error, and the answer shown back verbatim
    | MissingPersonalInformation                 // `details["Personal Information"]` raises `KeyError`
    | Rendered(resumeText: string, pdfFilename: string)

  /** The start of the error text shown when the answer does not decode. */
  const DecodeFailurePrefix := "Failed to decode response: "

  /**
   * The branches after `get_gemini_response`, with `json.loads` given as
   * `decode`: a missing or empty answer is never decoded, an undecodable one
   * is shown back verbatim, and only a record with personal information is
   * rendered and named.
   */
  function HandleResponse(response: Option<string>, decode: string -> Json): (r: Reply)
    ensures r.EmptyResponse? <==> response.None? || response.value == ""
    ensures r.DecodeFailed? <==> response.Some? && response.value != "" && decode(response.value).JsonError?
    ensures r.DecodeFailed? ==>
              r.raw == response.value && r.message == DecodeFailurePrefix + decode(response.value).message
    ensures r.MissingPersonalInformation? <==>
              && response.Some? && response.value != "" && decode(response.value).Parsed?
              && decode(response.value).details.personalInformation.None?
    ensures r.Rendered? ==>
              && response.Some? && response.value != "" && decode(response.value).Parsed?
              && var d := decode(response.value).details;
                 d.personalInformation.Some? && r.resumeText == CreateResume(d) && r.pdfFilename == PdfFilename(d)
  {
    match response
    case None => EmptyResponse
    case Some(text) =>
      if text == "" then EmptyResponse
      else match decode(text)
        case JsonError(e) => DecodeFailed(DecodeFailurePrefix + e, text)
        case Parsed(d) =>
          if d.personalInformation.None? then MissingPersonalInformation
          else Rendered(CreateResume(d), PdfFilename(d))
  }

  // ---------------------------------------------------------------------------
  // The rendered text as `save_pdf` sees it

  /** A line that starts with a space or a digit. */
  predicate Leads(line: string) {
    |line| > 0 && (line[0] == ' ' || '0' <= line[0] <= '9')
  }

  /** A line that starts with a space or a digit and is not all whitespace. */
  predicate Body(line: string) {
    Leads(line) && !IsBlank(line)
  }

  lemma LiteralThen(lit: string, x: string, i: nat)
    requires i < |lit| && lit[0] == ' ' && !IsSpace(lit[i])
    ensures Body(lit + x)
  {
    assert (lit + x)[0] == lit[0] && (lit + x)[i] == lit[i];
  }

  lemma NumberThen(n: nat, x: string)
    ensures Body(NatToString(n) + x)
  {
    var s := NatToString(n);
    assert (s + x)[0] == s[0];
  }

  lemma IndentThen(x: string)
    requires !IsBlank(x)
    ensures Body("    " + x)
  {
    var k :| 0 <= k < |x| && !IsSpace(x[k]);
    assert ("    " + x)[4 + k] == x[k];
  }

  lemma WorkEntryLinesBody(number: nat, we: WorkEntry)
    ensures forall j :: 0 <= j < 4 ==> Body(WorkEntryLines(number, we)[j])
  {
    NumberThen(number, ") Company: " + Field(we.company));
    assert NatToString(number) + ") Company: " + Field(we.company)
        == NatToString(number) + (") Company: " + Field(we.company));
    LiteralThen("   Position: ", Field(we.position), 3);
    LiteralThen("   Duration: ", Field(we.duration), 3);
    LiteralThen("  Description: ", Field(we.description), 2);
  }

  lemma EducationEntryLinesBody(number: nat, edu: EducationEntry)
    ensures forall j :: 0 <= j < 3 ==> Body(EducationEntryLines(number, edu)[j])
  {
    NumberThen(number, ") School: " + Field(edu.institution));
    assert NatToString(number) + ") School: " + Field(edu.institution)
        == NatToString(number) + (") School: " + Field(edu.institution));
    LiteralThen("   Degree: ", Field(edu.degree), 3);
    LiteralThen("   Duration: ", Field(edu.duration), 3);
  }

  lemma {:induction false} WorkLinesBody(entries: seq<WorkEntry>, k: nat)
    ensures forall j :: 0 <= j < |WorkLinesFrom(entries, k)| ==> Body(WorkLinesFrom(entries, k)[j])
    decreases |entries| - k
  {
    if k < |entries| {
      WorkEntryLinesBody(k + 1, entries[k]);
      WorkLinesBody(entries, k + 1);
    }
  }

  lemma {:induction false} EducationLinesBody(entries: seq<EducationEntry>, k: nat)
    ensures forall j :: 0 <= j < |EducationLinesFrom(entries, k)| ==> Body(EducationLinesFrom(entries, k)[j])
    decreases |entries| - k
  {
    if k < |entries| {
      EducationEntryLinesBody(k + 1, entries[k]);
      EducationLinesBody(entries, k + 1);
    }
  }

  /** The placeholder has a non-space character. */
  lemma NotSpecifiedNotBlank()
    ensures !IsBlank(NotSpecified)
  {
    assert NotSpecified[0] == 'N';
  }

  /** Every line of an indented section body leads with a space or a digit and has text. */
  lemma IndentedSectionBody(section: seq<string>, fromList: bool)
    requires |section| > 0
    requires !fromList ==> section == [NotSpecified]
    requires fromList ==> forall j :: 0 <= j < |section| ==> Body(section[j])
    ensures forall j :: 0 <= j < |section| ==> Body(Indent(section)[j])
  {
    if fromList {
      assert !IsBlank(section[0]);
    } else {
      NotSpecifiedNotBlank();
    }
    IndentThen(section[0]);
  }

  lemma WorkSectionBody(list: Option<seq<WorkEntry>>)
    ensures var w := WorkSectionLines(list); |w| > 0 && forall j :: 0 <= j < |w| ==> Body(Indent(w)[j])
  {
    var entries := list.GetOr([]);
    if entries == [] {
      IndentedSectionBody(WorkSectionLines(list), false);
    } else {
      WorkLinesFromAt(entries, 0);
      WorkLinesBody(entries, 0);
      IndentedSectionBody(WorkSectionLines(list), true);
    }
  }

  lemma EducationSectionBody(list: Option<seq<EducationEntry>>)
    ensures var e := EducationSectionLines(list); |e| > 0 && forall j :: 0 <= j < |e| ==> Body(Indent(e)[j])
  {
    var entries := list.GetOr([]);
    if entries == [] {
      IndentedSectionBody(EducationSectionLines(list), false);
    } else {
      EducationLinesFromAt(entries, 0);
      EducationLinesBody(entries, 0);
      IndentedSectionBody(EducationSectionLines(list), true);
    }
  }

  /** The fixed lines of the template above the work section, by kind. */
  lemma HeadKinds(p: Personal, summary: Option<string>, skills: Option<seq<string>>)
    ensures var h := Head(p, summary, skills);
      && |h| == 13
      && h[0] == "" && h[5] == "" && h[8] == "" && h[11] == ""
      && h[1] == PersonalHeader && h[6] == "Professional Summary:" && h[9] == "Skills:"
      && h[12] == "Work Experience:"
      && h[1..5] == [ PersonalHeader, "    Name: " + Field(p.name), "    Phone: " + Field(p.phone),
                      "    Email: " + Field(p.email) ]
      && Body(h[2]) && Body(h[3]) && Body(h[4]) && Leads(h[7]) && Leads(h[10])
  {
    LiteralThen("    Name: ", Field(p.name), 4);
    LiteralThen("    Phone: ", Field(p.phone), 4);
    LiteralThen("    Email: ", Field(p.email), 4);
  }

  /** The text `save_pdf` splits is the résumé's lines without the outer empty ones. */
  lemma PdfLinesOfResume(d: Details)
    requires d.personalInformation.Some? && SingleLine(d)
    ensures var r := ResumeLines(d);
      && |r| >= 16
      && PdfLines(CreateResume(d)) == r[1..|r| - 2] + [RStrip(r[|r| - 2])]
      && Body(r[|r| - 2])
  {
    SplitCreateResume(d);
    ResumeLinesOneLine(d);
    ResumeLinesEnds(d);
    PdfLinesOfLines(CreateResume(d), ResumeLines(d));
  }

  /** The first and last lines of the résumé, and the non-blank line before the last. */
  lemma ResumeLinesEnds(d: Details)
    requires d.personalInformation.Some?
    ensures var r := ResumeLines(d);
      && |r| >= 16 && r[0] == "" && r[1] == PersonalHeader && r[|r| - 1] == "" && Body(r[|r| - 2])
  {
    var p := d.personalInformation.value;
    var w := WorkSectionLines(d.workExperience);
    var e := EducationSectionLines(d.education);
    HeadKinds(p, d.profileSummary, d.skills);
    EducationSectionBody(d.education);
    var ie := Indent(e);
    assert Body(ie[|ie| - 1]);
    EndsOfLayout(Head(p, d.profileSummary, d.skills), Indent(w), ie);
  }

  /** The ends of the résumé's lines, with the head and the sections kept abstract. */
  lemma EndsOfLayout(h: seq<string>, w: seq<string>, e: seq<string>)
    requires |h| == 13 && h[0] == "" && h[1] == PersonalHeader && |e| > 0 && Body(e[|e| - 1])
    ensures var r := h + w + ["", "Education:"] + e + [""];
      && |r| >= 16 && r[0] == "" && r[1] == PersonalHeader && r[|r| - 1] == "" && Body(r[|r| - 2])
  {
    LayoutOfLines(h, w, e);
  }

  /** `strip().split('\n')` of a text whose lines begin and end with an empty one. */
  lemma PdfLinesOfLines(text: string, r: seq<string>)
    requires Split(text, '\n') == r && NoNewlines(r)
    requires |r| >= 4 && r[0] == "" && r[|r| - 1] == "" && r[1] == PersonalHeader
    requires !IsBlank(r[|r| - 2])
    ensures PdfLines(text) == r[1..|r| - 2] + [RStrip(r[|r| - 2])]
  {
    StripOfLines(text, r);
    SplitTrimmed(r);
  }

  lemma StripOfLines(text: string, r: seq<string>)
    requires Split(text, '\n') == r
    requires |r| >= 4 && r[0] == "" && r[|r| - 1] == "" && r[1] == PersonalHeader
    requires !IsBlank(r[|r| - 2])
    ensures Strip(text) == Join("\n", r[1..|r| - 2] + [RStrip(r[|r| - 2])])
  {
    assert r[1][0] == 'P';
    TrimmedJoin(r);
  }

  lemma SplitTrimmed(r: seq<string>)
    requires |r| >= 4 && NoNewlines(r)
    ensures var t := r[1..|r| - 2] + [RStrip(r[|r| - 2])]; Split(Join("\n", t), '\n') == t
  {
    var front := r[1..|r| - 2];
    var last := RStrip(r[|r| - 2]);
    forall k | 0 <= k < |front + [last]| ensures '\n' !in (front + [last])[k] {
      if k < |front| {
        assert (front + [last])[k] == r[k + 1];
      }
    }
    SplitOfJoin(front + [last], '\n');
  }

  /** All of a line's characters survive trailing-whitespace removal up to its last non-space. */
  lemma RStripBody(line: string)
    requires Body(line)
    ensures Leads(RStrip(line))
  {
  }

  /**
   * The PDF of a rendered résumé, when no line but the first mentions the
   * personal header: the personal block is exactly the header with the name,
   * phone and email lines; every other line follows in order; and the only
   * lines drawn as section titles, with a rule under them, are the four
   * titles of the template, in the template's order.
   */
  lemma SavedResumeLayout(d: Details)
    requires d.personalInformation.Some? && SingleLine(d)
    requires var lines := PdfLines(CreateResume(d));
             forall k :: 1 <= k < |lines| ==> !Contains(lines[k], PersonalHeader)
    ensures var lines := PdfLines(CreateResume(d));
      var p := d.personalInformation.value;
      var w := |WorkSectionLines(d.workExperience)|;
      && |lines| > 13 + w
      && Select(lines, PersonalMask(lines), |lines|, true)
         == [ PersonalHeader, "    Name: " + Field(p.name), "    Phone: " + Field(p.phone),
              "    Email: " + Field(p.email) ]
      && Select(lines, PersonalMask(lines), |lines|, false) == lines[4..]
      && lines[5] == "Professional Summary:" && lines[8] == "Skills:"
      && lines[11] == "Work Experience:" && lines[13 + w] == "Education:"
      && forall k :: 4 <= k < |lines| ==> (IsSectionHeader(lines[k]) <==> k == 5 || k == 8 || k == 11 || k == 13 + w)
  {
    var lines := PdfLines(CreateResume(d));
    var r := ResumeLines(d);
    PdfLinesOfResume(d);
    RStripBody(r[|r| - 2]);
    SavedLinesKinds(d, lines);
    ContainsSelf(PersonalHeader);
    PartitionOfResume(lines);
  }

  /** The kinds of the saved lines, from the résumé's lines. */
  lemma SavedLinesKinds(d: Details, lines: seq<string>)
    requires d.personalInformation.Some?
    requires var r := ResumeLines(d); |r| >= 16 && lines == r[1..|r| - 2] + [RStrip(r[|r| - 2])]
    requires Leads(lines[|lines| - 1])
    ensures var w := |WorkSectionLines(d.workExperience)|;
      var p := d.personalInformation.value;
      && |lines| > 13 + w
      && lines[..4] == [ PersonalHeader, "    Name: " + Field(p.name), "    Phone: " + Field(p.phone),
                         "    Email: " + Field(p.email) ]
      && lines[0] == PersonalHeader && Body(lines[1]) && Body(lines[2]) && Body(lines[3]) && lines[4] == ""
      && lines[5] == "Professional Summary:" && lines[8] == "Skills:"
      && lines[11] == "Work Experience:" && lines[13 + w] == "Education:"
      && forall k :: 4 <= k < |lines| ==> (IsSectionHeader(lines[k]) <==> k == 5 || k == 8 || k == 11 || k == 13 + w)
  {
    var r := ResumeLines(d);
    var p := d.personalInformation.value;
    var wl := WorkSectionLines(d.workExperience);
    var el := EducationSectionLines(d.education);
    HeadKinds(p, d.profileSummary, d.skills);
    WorkSectionBody(d.workExperience);
    EducationSectionBody(d.education);
    LayoutOfLines(Head(p, d.profileSummary, d.skills), Indent(wl), Indent(el));
    assert forall k :: 0 <= k < |lines| - 1 ==> lines[k] == r[k + 1];
    assert lines[..4] == r[1..5] == r[..13][1..5];
    LinesKinds(lines, r, Head(p, d.profileSummary, d.skills), Indent(wl), Indent(el));
  }

  /** Where the titles, the empty lines and the body lines fall in the saved text. */
  lemma LinesKinds(lines: seq<string>, r: seq<string>, h: seq<string>, w: seq<string>, e: seq<string>)
    requires |h| == 13 && |e| > 0
    requires r == h + w + ["", "Education:"] + e + [""]
    requires |lines| == |r| - 2
    requires forall k :: 0 <= k < |lines| - 1 ==> lines[k] == r[k + 1]
    requires Leads(lines[|lines| - 1])
    requires h[5] == "" && h[8] == "" && h[11] == ""
    requires h[1] == PersonalHeader && h[6] == "Professional Summary:" && h[9] == "Skills:"
    requires h[12] == "Work Experience:"
    requires Body(h[2]) && Body(h[3]) && Body(h[4]) && Leads(h[7]) && Leads(h[10])
    requires forall j :: 0 <= j < |w| ==> Body(w[j])
    requires forall j :: 0 <= j < |e| ==> Body(e[j])
    ensures |lines| > 13 + |w|
    ensures lines[0] == PersonalHeader && Body(lines[1]) && Body(lines[2]) && Body(lines[3]) && lines[4] == ""
    ensures lines[5] == "Professional Summary:" && lines[8] == "Skills:"
    ensures lines[11] == "Work Experience:" && lines[13 + |w|] == "Education:"
    ensures forall k :: 4 <= k < |lines| ==> (IsSectionHeader(lines[k]) <==> k == 5 || k == 8 || k == 11 || k == 13 + |w|)
  {
    var n := |lines|;
    LinesRegions(lines, r, h, w, e);
    forall k | 4 <= k < n
      ensures IsSectionHeader(lines[k]) <==> k == 5 || k == 8 || k == 11 || k == 13 + |w|
    {
      if k == 5 || k == 8 || k == 11 || k == 13 + |w| {
        TitleIsSectionHeader(lines[k]);
      } else if k == 4 || k == 7 || k == 10 || k == 12 + |w| {
        EmptyIsNotSectionHeader(lines[k]);
      } else if k == n - 1 {
        IndentedIsNotSectionHeader(lines[k]);
      } else if k < 12 {
        assert lines[k] == h[k + 1];
        IndentedIsNotSectionHeader(lines[k]);
      } else if k < 12 + |w| {
        assert lines[k] == w[k - 12];
        IndentedIsNotSectionHeader(lines[k]);
      } else {
        assert lines[k] == e[k - 14 - |w|];
        IndentedIsNotSectionHeader(lines[k]);
      }
    }
  }

  /** Which part of the joined list each saved line comes from. */
  lemma LinesRegions(lines: seq<string>, r: seq<string>, h: seq<string>, w: seq<string>, e: seq<string>)
    requires |h| == 13 && |e| > 0
    requires r == h + w + ["", "Education:"] + e + [""]
    requires |lines| == |r| - 2
    requires forall k :: 0 <= k < |lines| - 1 ==> lines[k] == r[k + 1]
    ensures |lines| == 14 + |w| + |e|
    ensures forall k :: 0 <= k < 12 ==> lines[k] == h[k + 1]
    ensures forall k :: 12 <= k < 12 + |w| ==> lines[k] == w[k - 12]
    ensures lines[12 + |w|] == "" && lines[13 + |w|] == "Education:"
    ensures forall k :: 14 + |w| <= k < |lines| - 1 ==> lines[k] == e[k - 14 - |w|]
  {
    assert r[..13] == h;
    assert r[13..13 + |w|] == w;
    assert r[15 + |w|..15 + |w| + |e|] == e;
  }

  lemma TitleIsSectionHeader(line: string)
    requires line == "Professional Summary:" || line == "Skills:" || line == "Work Experience:" || line == "Education:"
    ensures IsSectionHeader(line)
  {
    assert StartsWith(line, line);
  }

  lemma EmptyIsNotSectionHeader(line: string)
    requires line == ""
    ensures !IsSectionHeader(line)
  {
  }


  /** The header on the first line and an empty fifth line make the personal block lines 0 to 3. */
  lemma PartitionOfResume(lines: seq<string>)
    requires |lines| > 4 && Contains(lines[0], PersonalHeader)
    requires forall k :: 1 <= k < |lines| ==> !Contains(lines[k], PersonalHeader)
    requires Body(lines[1]) && Body(lines[2]) && Body(lines[3]) && lines[4] == ""
    ensures Select(lines, PersonalMask(lines), |lines|, true) == lines[..4]
    ensures Select(lines, PersonalMask(lines), |lines|, false) == lines[4..]
  {
    var mask := PersonalMask(lines);
    PersonalPrefix(lines);
    OtherSuffix(lines);
    forall i | 0 <= i < |lines| ensures mask[i] <==> i < 4 {
      assert mask[i] <==> InPersonalBlock(lines, i);
    }
    PartitionOfFirstFour(lines, mask);
  }

  /** A mask that marks exactly the first four lines selects them, and leaves the rest. */
  lemma PartitionOfFirstFour(lines: seq<string>, mask: seq<bool>)
    requires |lines| == |mask| && |lines| >= 4
    requires forall i :: 0 <= i < |lines| ==> (mask[i] <==> i < 4)
    ensures Select(lines, mask, |lines|, true) == lines[..4]
    ensures Select(lines, mask, |lines|, false) == lines[4..]
  {
    PartitionOfBlock(lines, mask, 0, 4, |lines|);
    assert lines[..0] + lines[4..|lines|] == lines[4..];
  }

  lemma PersonalPrefix(lines: seq<string>)
    requires |lines| > 4 && Contains(lines[0], PersonalHeader)
    requires Body(lines[1]) && Body(lines[2]) && Body(lines[3])
    ensures forall i :: 0 <= i < 4 ==> InPersonalBlock(lines, i)
  {
    forall i | 0 <= i < 4 ensures InPersonalBlock(lines, i) {
      assert forall j :: 0 < j <= i ==> !IsBlank(lines[j]);
    }
  }

  lemma OtherSuffix(lines: seq<string>)
    requires |lines| > 4 && lines[4] == ""
    requires forall k :: 1 <= k < |lines| ==> !Contains(lines[k], PersonalHeader)
    ensures forall i :: 4 <= i < |lines| ==> !InPersonalBlock(lines, i)
  {
    forall i | 4 <= i < |lines| ensures !InPersonalBlock(lines, i) {
      ClosedAfterBlank(lines, 4, i);
    }
  }
}
