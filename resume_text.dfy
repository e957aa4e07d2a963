/**
 * The plain-text résumé renderer `create_resume` and the output file name,
 * over the record decoded from the model's JSON reply. Every key of the reply
 * is optional except "Personal Information", which the renderer indexes
 * directly (a missing key raises `KeyError`, so it is a precondition here).
 */
module ResumeText {
  import opened Wrappers
  import opened Strings

  /** The placeholder the renderer writes for every absent field. */
  const NotSpecified: string := "Not specified"

  datatype Personal = Personal(name: Option<string>, phone: Option<string>, email: Option<string>)

  datatype WorkEntry = WorkEntry(
    company: Option<string>,
    position: Option<string>,
    duration: Option<string>,
    description: Option<string>)

  datatype EducationEntry = EducationEntry(
    institution: Option<string>,
    degree: Option<string>,
    duration: Option<string>)

  /** The decoded reply; one field per key the application reads. */
  datatype Details = Details(
    jdMatch: Option<string>,
    missingKeywords: Option<seq<string>>,
    yearsOfExperience: Option<string>,
    profileSummary: Option<string>,
    personalInformation: Option<Personal>,
    skills: Option<seq<string>>,
    workExperience: Option<seq<WorkEntry>>,
    education: Option<seq<EducationEntry>>)

  /** `entry.get(key, 'Not specified')`. */
  function Field(o: Option<string>): string {
    o.GetOr(NotSpecified)
  }

  /**
   * The skills sentence: an absent list reads as the single skill
   * "Not specified", a present empty list as nothing at all.
   */
  function SkillsLine(skills: Option<seq<string>>): (r: string)
    ensures skills.None? ==> r == "Proficient in Not specified."
    ensures skills == Some([]) ==> r == "Proficient in ."
    ensures skills.Some? ==> r == "Proficient in " + Join(", ", skills.value) + "."
  {
    "Proficient in " + Join(", ", skills.GetOr([NotSpecified])) + "."
  }

  /**
   * The block for the work entry numbered `number` (counting from 1): its
   * four lines joined by newlines.
   */
  function WorkBlock(number: nat, we: WorkEntry): (block: string)
    ensures block == Join("\n", WorkEntryLines(number, we))
  {
    var ls := WorkEntryLines(number, we);
    assert ls[3..] == [ls[3]];
    JoinDrop("\n", ls, 2);
    JoinDrop("\n", ls, 1);
    JoinDrop("\n", ls, 0);
    assert ls[0..] == ls;
    BlockLiterals();
    RegroupFour("\n", NatToString(number) + ") Company: ", "   Position: ", "   Duration: ", "  Description: ",
                Field(we.company), Field(we.position), Field(we.duration), Field(we.description));
    NatToString(number) + ") Company: " + Field(we.company)
    + "\n   Position: " + Field(we.position)
    + "\n   Duration: " + Field(we.duration)
    + "\n  Description: " + Field(we.description)
  }

  /**
   * The block for the education entry numbered `number` (counting from 1):
   * its three lines joined by newlines.
   */
  function EducationBlock(number: nat, edu: EducationEntry): (block: string)
    ensures block == Join("\n", EducationEntryLines(number, edu))
  {
    var ls := EducationEntryLines(number, edu);
    assert ls[2..] == [ls[2]];
    JoinDrop("\n", ls, 1);
    JoinDrop("\n", ls, 0);
    assert ls[0..] == ls;
    BlockLiterals();
    RegroupThree("\n", NatToString(number) + ") School: ", "   Degree: ", "   Duration: ",
                 Field(edu.institution), Field(edu.degree), Field(edu.duration));
    NatToString(number) + ") School: " + Field(edu.institution)
    + "\n   Degree: " + Field(edu.degree)
    + "\n   Duration: " + Field(edu.duration)
  }

  /** The list comprehension over `enumerate(work_experience_list)`. */
  function WorkBlocks(entries: seq<WorkEntry>): seq<string> {
    seq(|entries|, i requires 0 <= i < |entries| => WorkBlock(i + 1, entries[i]))
  }

  /** The list comprehension over `enumerate(education_list)`. */
  function EducationBlocks(entries: seq<EducationEntry>): seq<string> {
    seq(|entries|, i requires 0 <= i < |entries| => EducationBlock(i + 1, entries[i]))
  }

  /**
   * `"\n".join(blocks) or "Not specified"`, with an absent key read as `[]`:
   * the placeholder stands exactly for an absent or empty list, since every
   * block starts with its number.
   */
  function WorkSection(list: Option<seq<WorkEntry>>): (body: string)
    ensures body == NotSpecified <==> (list.None? || list.value == [])
  {
    var blocks := WorkBlocks(list.GetOr([]));
    var joined := Join("\n", blocks);
    if joined == "" then NotSpecified
    else
      assert blocks != [] ==> joined[0] == blocks[0][0] == NatToString(1)[0];
      joined
  }

  /**
   * `"\n".join(blocks) or "Not specified"`, with an absent key read as `[]`:
   * the placeholder stands exactly for an absent or empty list, since every
   * block starts with its number.
   */
  function EducationSection(list: Option<seq<EducationEntry>>): (body: string)
    ensures body == NotSpecified <==> (list.None? || list.value == [])
  {
    var blocks := EducationBlocks(list.GetOr([]));
    var joined := Join("\n", blocks);
    if joined == "" then NotSpecified
    else
      assert blocks != [] ==> joined[0] == blocks[0][0] == NatToString(1)[0];
      joined
  }

  /** `create_resume(details)`: the résumé's lines joined by newlines. */
  function CreateResume(d: Details): (text: string)
    requires d.personalInformation.Some?
    ensures text == Join("\n", ResumeLines(d))
  {
    var p := d.personalInformation.value;
    var w := WorkSectionLines(d.workExperience);
    var e := EducationSectionLines(d.education);
    HeadText(p, d.profileSummary, d.skills);
    WorkSectionAsLines(d.workExperience);
    EducationSectionAsLines(d.education);
    IndentJoin(w);
    IndentJoin(e);
    JoinFive("\n", Head(p, d.profileSummary, d.skills), Indent(w), ["", "Education:"], Indent(e), [""]);
    assert Join("\n", ["", "Education:"]) == "" + "\n" + "Education:";
    var head := "\nPersonal Information:\n    Name: " + Field(p.name)
         + "\n    Phone: " + Field(p.phone)
         + "\n    Email: " + Field(p.email)
         + "\n\nProfessional Summary:\n    " + Field(d.profileSummary)
         + "\n\nSkills:\n    " + SkillsLine(d.skills);
    RegroupResume(head, "\n\nWork Experience:", "\n", "    ", "Education:",
                  WorkSection(d.workExperience), EducationSection(d.education));
    WorkLiterals();
    EducationLiterals();
    head
    + "\n\nWork Experience:\n    " + WorkSection(d.workExperience)
    + "\n\nEducation:\n    " + EducationSection(d.education)
    + "\n"
  }

  /** The placeholder the file name uses for a missing name (an underscore, not a space). */
  const FilenamePlaceholder: string := "Not_specified"
  const PdfSuffix: string := "_generated_resume.pdf"

  /** The name of the generated PDF: the candidate's name, then a fixed suffix. */
  function PdfFilename(d: Details): (filename: string)
    requires d.personalInformation.Some?
    ensures |filename| >= |PdfSuffix| && filename[|filename| - |PdfSuffix|..] == PdfSuffix
    ensures filename[..|filename| - |PdfSuffix|]
            == if d.personalInformation.value.name.Some?
               then d.personalInformation.value.name.value
               else FilenamePlaceholder
  {
    d.personalInformation.value.name.GetOr(FilenamePlaceholder) + PdfSuffix
  }

  // ---------------------------------------------------------------------------
  // The same text, line by line

  /** The lines of one work block. */
  function WorkEntryLines(number: nat, we: WorkEntry): seq<string> {
    [ NatToString(number) + ") Company: " + Field(we.company),
      "   Position: " + Field(we.position),
      "   Duration: " + Field(we.duration),
      "  Description: " + Field(we.description) ]
  }

  /** The lines of one education block. */
  function EducationEntryLines(number: nat, edu: EducationEntry): seq<string> {
    [ NatToString(number) + ") School: " + Field(edu.institution),
      "   Degree: " + Field(edu.degree),
      "   Duration: " + Field(edu.duration) ]
  }

  /** The lines of the work entries from index `k` on, numbered from `k + 1`. */
  function WorkLinesFrom(entries: seq<WorkEntry>, k: nat): seq<string>
    decreases |entries| - k
  {
    if k >= |entries| then [] else WorkEntryLines(k + 1, entries[k]) + WorkLinesFrom(entries, k + 1)
  }

  /** The lines of the education entries from index `k` on, numbered from `k + 1`. */
  function EducationLinesFrom(entries: seq<EducationEntry>, k: nat): seq<string>
    decreases |entries| - k
  {
    if k >= |entries| then [] else EducationEntryLines(k + 1, entries[k]) + EducationLinesFrom(entries, k + 1)
  }

  /** The body of the work section, line by line (before its first line is indented). */
  function WorkSectionLines(list: Option<seq<WorkEntry>>): seq<string> {
    var entries := list.GetOr([]);
    if entries == [] then [NotSpecified] else WorkLinesFrom(entries, 0)
  }

  /** The body of the education section, line by line (before its first line is indented). */
  function EducationSectionLines(list: Option<seq<EducationEntry>>): seq<string> {
    var entries := list.GetOr([]);
    if entries == [] then [NotSpecified] else EducationLinesFrom(entries, 0)
  }

  /** The template puts four spaces before a section body: only its first line moves. */
  function Indent(lines: seq<string>): seq<string>
    requires |lines| > 0
  {
    ["    " + lines[0]] + lines[1..]
  }

  /** The résumé as a list of lines; a field holding a newline stays one entry here. */
  function ResumeLines(d: Details): seq<string>
    requires d.personalInformation.Some?
  {
    var p := d.personalInformation.value;
    Head(p, d.profileSummary, d.skills)
    + Indent(WorkSectionLines(d.workExperience))
    + ["", "Education:"]
    + Indent(EducationSectionLines(d.education))
    + [""]
  }

  /** The lines from the leading empty one down to the "Work Experience:" header. */
  function Head(p: Personal, summary: Option<string>, skills: Option<seq<string>>): seq<string> {
    [ "", "Personal Information:",
      "    Name: " + Field(p.name),
      "    Phone: " + Field(p.phone),
      "    Email: " + Field(p.email),
      "", "Professional Summary:",
      "    " + Field(summary),
      "", "Skills:",
      "    " + SkillsLine(skills),
      "", "Work Experience:" ]
  }

  /** No present string field of the record holds a newline. */
  predicate SingleLine(d: Details) {
    && (d.personalInformation.Some? ==>
          var p := d.personalInformation.value;
          OneLine(p.name) && OneLine(p.phone) && OneLine(p.email))
    && OneLine(d.profileSummary)
    && (d.skills.Some? ==> forall k :: 0 <= k < |d.skills.value| ==> '\n' !in d.skills.value[k])
    && (d.workExperience.Some? ==> forall k :: 0 <= k < |d.workExperience.value| ==> OneLineWork(d.workExperience.value[k]))
    && (d.education.Some? ==> forall k :: 0 <= k < |d.education.value| ==> OneLineEducation(d.education.value[k]))
  }

  predicate OneLine(o: Option<string>) {
    o.Some? ==> '\n' !in o.value
  }

  predicate OneLineWork(we: WorkEntry) {
    OneLine(we.company) && OneLine(we.position) && OneLine(we.duration) && OneLine(we.description)
  }

  predicate OneLineEducation(edu: EducationEntry) {
    OneLine(edu.institution) && OneLine(edu.degree) && OneLine(edu.duration)
  }

  // ---------------------------------------------------------------------------
  // Lemmas

  /** Regrouping a joined block of four lines, with every literal piece kept abstract. */
  lemma RegroupFour(nl: string, a: string, b: string, c: string, d: string, x: string, y: string, z: string, w: string)
    ensures (a + x) + nl + ((b + y) + nl + ((c + z) + nl + (d + w)))
         == a + x + (nl + b) + y + (nl + c) + z + (nl + d) + w
  {
  }

  /** Regrouping a joined block of three lines, with every literal piece kept abstract. */
  lemma RegroupThree(nl: string, a: string, b: string, c: string, x: string, y: string, z: string)
    ensures (a + x) + nl + ((b + y) + nl + (c + z))
         == a + x + (nl + b) + y + (nl + c) + z
  {
  }

  /** Joining the blocks from `k` on is joining their lines. */
  lemma {:induction false} WorkBlocksAsLines(entries: seq<WorkEntry>, k: nat)
    requires k < |entries|
    ensures |WorkLinesFrom(entries, k)| > 0
    ensures Join("\n", WorkBlocks(entries)[k..]) == Join("\n", WorkLinesFrom(entries, k))
    decreases |entries| - k
  {
    var blocks := WorkBlocks(entries)[k..];
    if k + 1 == |entries| {
      assert blocks == [WorkBlock(k + 1, entries[k])];
      assert WorkLinesFrom(entries, k) == WorkEntryLines(k + 1, entries[k]);
    } else {
      assert blocks[1..] == WorkBlocks(entries)[k + 1..];
      WorkBlocksAsLines(entries, k + 1);
      JoinAppend("\n", WorkEntryLines(k + 1, entries[k]), WorkLinesFrom(entries, k + 1));
    }
  }

  /** Joining the blocks from `k` on is joining their lines. */
  lemma {:induction false} EducationBlocksAsLines(entries: seq<EducationEntry>, k: nat)
    requires k < |entries|
    ensures |EducationLinesFrom(entries, k)| > 0
    ensures Join("\n", EducationBlocks(entries)[k..]) == Join("\n", EducationLinesFrom(entries, k))
    decreases |entries| - k
  {
    var blocks := EducationBlocks(entries)[k..];
    if k + 1 == |entries| {
      assert blocks == [EducationBlock(k + 1, entries[k])];
      assert EducationLinesFrom(entries, k) == EducationEntryLines(k + 1, entries[k]);
    } else {
      assert blocks[1..] == EducationBlocks(entries)[k + 1..];
      EducationBlocksAsLines(entries, k + 1);
      JoinAppend("\n", EducationEntryLines(k + 1, entries[k]), EducationLinesFrom(entries, k + 1));
    }
  }

  lemma WorkSectionAsLines(list: Option<seq<WorkEntry>>)
    ensures WorkSection(list) == Join("\n", WorkSectionLines(list))
  {
    var entries := list.GetOr([]);
    if entries != [] {
      WorkBlocksAsLines(entries, 0);
      assert WorkBlocks(entries)[0..] == WorkBlocks(entries);
    }
  }

  lemma EducationSectionAsLines(list: Option<seq<EducationEntry>>)
    ensures EducationSection(list) == Join("\n", EducationSectionLines(list))
  {
    var entries := list.GetOr([]);
    if entries != [] {
      EducationBlocksAsLines(entries, 0);
      assert EducationBlocks(entries)[0..] == EducationBlocks(entries);
    }
  }

  lemma IndentJoin(lines: seq<string>)
    requires |lines| > 0
    ensures "    " + Join("\n", lines) == Join("\n", Indent(lines))
  {
    PrefixJoin("\n", "    ", lines);
  }

  /** A join of thirteen pieces, unfolded. */
  lemma JoinThirteen(sep: string, h: seq<string>)
    requires |h| == 13
    ensures Join(sep, h)
      == h[0] + sep + (h[1] + sep + (h[2] + sep + (h[3] + sep + (h[4] + sep + (h[5] + sep + (h[6] + sep
         + (h[7] + sep + (h[8] + sep + (h[9] + sep + (h[10] + sep + (h[11] + sep + h[12])))))))))))
  {
    assert h[12..] == [h[12]];
    JoinDrop(sep, h, 11);
    JoinDrop(sep, h, 10);
    JoinDrop(sep, h, 9);
    JoinDrop(sep, h, 8);
    JoinDrop(sep, h, 7);
    JoinDrop(sep, h, 6);
    JoinDrop(sep, h, 5);
    JoinDrop(sep, h, 4);
    JoinDrop(sep, h, 3);
    JoinDrop(sep, h, 2);
    JoinDrop(sep, h, 1);
    JoinDrop(sep, h, 0);
    assert h[0..] == h;
  }

  /**
   * The template's multi-line literals, cut at their newlines. The longest
   * literal of a group is also split by a lemma of its own, which the group's
   * lemma calls: proved together with the rest of its group, one such
   * equation costs the solver several times more than both steps apart.
   */
  lemma PersonalLiterals()
    ensures "\nPersonal Information:\n    Name: " == "\n" + "Personal Information:" + "\n" + "    Name: "
    ensures "\n    Phone: " == "\n" + "    Phone: "
    ensures "\n    Email: " == "\n" + "    Email: "
  {
    PersonalHeaderLiteral();
  }

  lemma PersonalHeaderLiteral()
    ensures "\nPersonal Information:\n    Name: " == "\n" + "Personal Information:" + "\n" + "    Name: "
  {
  }

  lemma SectionLiterals()
    ensures "\n\nProfessional Summary:\n    " == "\n" + "\n" + "Professional Summary:" + "\n" + "    "
    ensures "\n\nSkills:\n    " == "\n" + "\n" + "Skills:" + "\n" + "    "
  {
    SummaryLiteral();
  }

  lemma SummaryLiteral()
    ensures "\n\nProfessional Summary:\n    " == "\n" + "\n" + "Professional Summary:" + "\n" + "    "
  {
  }

  lemma WorkLiterals()
    ensures "\n\nWork Experience:" == "\n" + "\n" + "Work Experience:"
    ensures "\n\nWork Experience:\n    " == "\n\nWork Experience:" + "\n" + "    "
  {
  }

  lemma EducationLiterals()
    ensures "\n\nEducation:\n    " == "\n" + "\n" + "Education:" + "\n" + "    "
  {
  }

  lemma BlockLiterals()
    ensures "\n   Position: " == "\n" + "   Position: "
    ensures "\n   Duration: " == "\n" + "   Duration: "
    ensures "\n  Description: " == "\n" + "  Description: "
    ensures "\n   Degree: " == "\n" + "   Degree: "
  {
  }

  /** Regrouping the joined head, with every literal piece kept abstract. */
  lemma RegroupHead(nl: string, info: string, name: string, phone: string, email: string,
                    summary: string, skills: string, work: string, ind: string,
                    n: string, ph: string, e: string, s: string, k: string)
    ensures "" + nl + (info + nl + ((name + n) + nl + ((phone + ph) + nl + ((email + e) + nl
            + ("" + nl + (summary + nl + ((ind + s) + nl + ("" + nl + (skills + nl + ((ind + k) + nl
            + ("" + nl + work)))))))))))
         == (nl + info + nl + name) + n + (nl + phone) + ph + (nl + email) + e
            + (nl + nl + summary + nl + ind) + s + (nl + nl + skills + nl + ind) + k
            + (nl + nl + work)
  {
    var tail := "" + nl + work;
    var skillsPart := "" + nl + (skills + nl + ((ind + k) + nl + tail));
    var summaryPart := "" + nl + (summary + nl + ((ind + s) + nl + skillsPart));
    RegroupPersonal(nl, info, name, phone, email, n, ph, e, summaryPart);
    RegroupSection(nl, summary, ind, s, skillsPart);
    RegroupSection(nl, skills, ind, k, tail);
    RegroupChain((nl + info + nl + name) + n + (nl + phone) + ph + (nl + email) + e,
                 (nl + nl + summary + nl + ind) + s, (nl + nl + skills + nl + ind) + k, nl + nl + work);
  }

  lemma RegroupPersonal(nl: string, info: string, name: string, phone: string, email: string,
                        n: string, ph: string, e: string, rest: string)
    ensures "" + nl + (info + nl + ((name + n) + nl + ((phone + ph) + nl + ((email + e) + nl + rest))))
         == (nl + info + nl + name) + n + (nl + phone) + ph + (nl + email) + e + (nl + rest)
  {
  }

  lemma RegroupSection(nl: string, title: string, ind: string, x: string, rest: string)
    ensures nl + ("" + nl + (title + nl + ((ind + x) + nl + rest)))
         == (nl + nl + title + nl + ind) + x + (nl + rest)
  {
  }

  lemma RegroupChain(a: string, b: string, c: string, d: string)
    ensures a + (b + (c + d)) == a + b + c + d
  {
  }

  lemma HeadText(p: Personal, summary: Option<string>, skills: Option<seq<string>>)
    ensures Join("\n", Head(p, summary, skills))
      == "\nPersonal Information:\n    Name: " + Field(p.name)
         + "\n    Phone: " + Field(p.phone)
         + "\n    Email: " + Field(p.email)
         + "\n\nProfessional Summary:\n    " + Field(summary)
         + "\n\nSkills:\n    " + SkillsLine(skills)
         + "\n\nWork Experience:"
  {
    JoinThirteen("\n", Head(p, summary, skills));
    PersonalLiterals();
    SectionLiterals();
    WorkLiterals();
    RegroupHead("\n", "Personal Information:", "    Name: ", "    Phone: ", "    Email: ",
                "Professional Summary:", "Skills:", "Work Experience:", "    ",
                Field(p.name), Field(p.phone), Field(p.email), Field(summary), SkillsLine(skills));
  }

  /** Regrouping the whole joined text, with every literal piece kept abstract. */
  lemma RegroupResume(head: string, work: string, nl: string, ind: string, edu: string, ws: string, es: string)
    ensures (head + work) + nl + (ind + ws) + nl + ("" + nl + edu) + nl + (ind + es) + nl + ""
         == head + (work + nl + ind) + ws + (nl + nl + edu + nl + ind) + es + nl
  {
  }

  /** No line holds a newline. */
  predicate NoNewlines(lines: seq<string>) {
    forall i :: 0 <= i < |lines| ==> '\n' !in lines[i]
  }

  lemma NoNewlinesAppend(a: seq<string>, b: seq<string>)
    requires NoNewlines(a) && NoNewlines(b)
    ensures NoNewlines(a + b)
  {
    forall i | 0 <= i < |a + b| ensures '\n' !in (a + b)[i] {
      if i >= |a| {
        assert (a + b)[i] == b[i - |a|];
      }
    }
  }

  lemma FieldOneLine(o: Option<string>)
    requires OneLine(o)
    ensures '\n' !in Field(o)
  {
  }

  lemma WorkEntryLinesOneLine(number: nat, we: WorkEntry)
    requires OneLineWork(we)
    ensures NoNewlines(WorkEntryLines(number, we))
  {
    var digits := NatToString(number);
    assert '\n' !in digits;
    FieldOneLine(we.company);
    FieldOneLine(we.position);
    FieldOneLine(we.duration);
    FieldOneLine(we.description);
  }

  lemma EducationEntryLinesOneLine(number: nat, edu: EducationEntry)
    requires OneLineEducation(edu)
    ensures NoNewlines(EducationEntryLines(number, edu))
  {
    var digits := NatToString(number);
    assert '\n' !in digits;
    FieldOneLine(edu.institution);
    FieldOneLine(edu.degree);
    FieldOneLine(edu.duration);
  }

  lemma {:induction false} WorkLinesOneLine(entries: seq<WorkEntry>, k: nat)
    requires forall j :: 0 <= j < |entries| ==> OneLineWork(entries[j])
    ensures NoNewlines(WorkLinesFrom(entries, k))
    decreases |entries| - k
  {
    if k < |entries| {
      WorkEntryLinesOneLine(k + 1, entries[k]);
      WorkLinesOneLine(entries, k + 1);
      NoNewlinesAppend(WorkEntryLines(k + 1, entries[k]), WorkLinesFrom(entries, k + 1));
    }
  }

  lemma {:induction false} EducationLinesOneLine(entries: seq<EducationEntry>, k: nat)
    requires forall j :: 0 <= j < |entries| ==> OneLineEducation(entries[j])
    ensures NoNewlines(EducationLinesFrom(entries, k))
    decreases |entries| - k
  {
    if k < |entries| {
      EducationEntryLinesOneLine(k + 1, entries[k]);
      EducationLinesOneLine(entries, k + 1);
      NoNewlinesAppend(EducationEntryLines(k + 1, entries[k]), EducationLinesFrom(entries, k + 1));
    }
  }

  lemma IndentOneLine(lines: seq<string>)
    requires |lines| > 0 && NoNewlines(lines)
    ensures NoNewlines(Indent(lines))
  {
    assert '\n' !in "    " + lines[0];
  }

  lemma HeadOneLine(p: Personal, summary: Option<string>, skills: Option<seq<string>>)
    requires OneLine(p.name) && OneLine(p.phone) && OneLine(p.email) && OneLine(summary)
    requires skills.Some? ==> forall k :: 0 <= k < |skills.value| ==> '\n' !in skills.value[k]
    ensures NoNewlines(Head(p, summary, skills))
  {
    FieldOneLine(p.name);
    FieldOneLine(p.phone);
    FieldOneLine(p.email);
    FieldOneLine(summary);
    SkillsOneLine(skills);
    HeadLiteralsOneLine();
    ConcatOneLine("    Name: ", Field(p.name));
    ConcatOneLine("    Phone: ", Field(p.phone));
    ConcatOneLine("    Email: ", Field(p.email));
    ConcatOneLine("    ", Field(summary));
    ConcatOneLine("    ", SkillsLine(skills));
    HeadDisplayOneLine("Personal Information:", "    Name: " + Field(p.name), "    Phone: " + Field(p.phone),
                       "    Email: " + Field(p.email), "Professional Summary:", "    " + Field(summary),
                       "Skills:", "    " + SkillsLine(skills), "Work Experience:");
  }

  /** The head's shape, with every line kept abstract. */
  lemma HeadDisplayOneLine(info: string, name: string, phone: string, email: string,
                           summaryTitle: string, summary: string, skillsTitle: string, skills: string, work: string)
    requires '\n' !in info && '\n' !in name && '\n' !in phone && '\n' !in email
    requires '\n' !in summaryTitle && '\n' !in summary && '\n' !in skillsTitle && '\n' !in skills && '\n' !in work
    ensures NoNewlines(["", info, name, phone, email, "", summaryTitle, summary, "", skillsTitle, skills, "", work])
  {
  }

  lemma SkillsOneLine(skills: Option<seq<string>>)
    requires skills.Some? ==> forall k :: 0 <= k < |skills.value| ==> '\n' !in skills.value[k]
    ensures '\n' !in SkillsLine(skills)
  {
    var parts := skills.GetOr([NotSpecified]);
    assert '\n' !in NotSpecified && '\n' !in ", ";
    JoinAvoids(", ", parts, '\n');
    HeadLiteralsOneLine();
    ConcatOneLine("Proficient in ", Join(", ", parts));
    ConcatOneLine("Proficient in " + Join(", ", parts), ".");
  }

  lemma ConcatOneLine(a: string, b: string)
    requires '\n' !in a && '\n' !in b
    ensures '\n' !in a + b
  {
  }

  /**
   * The head's literals hold no newline. As with the literal splits above,
   * the titles and labels are checked by lemmas of their own, to keep each
   * proof obligation small.
   */
  lemma HeadLiteralsOneLine()
    ensures '\n' !in "Personal Information:" && '\n' !in "Professional Summary:"
    ensures '\n' !in "Skills:" && '\n' !in "Work Experience:"
    ensures '\n' !in "    Name: " && '\n' !in "    Phone: " && '\n' !in "    Email: " && '\n' !in "    "
    ensures '\n' !in "Proficient in " && '\n' !in "."
  {
    TitlesOneLine();
    LabelsOneLine();
  }

  lemma TitlesOneLine()
    ensures '\n' !in "Personal Information:" && '\n' !in "Professional Summary:"
  {
  }

  lemma LabelsOneLine()
    ensures '\n' !in "    Name: " && '\n' !in "    Phone: " && '\n' !in "    Email: "
  {
  }

  lemma ResumeLinesOneLine(d: Details)
    requires d.personalInformation.Some? && SingleLine(d)
    ensures NoNewlines(ResumeLines(d))
  {
    var p := d.personalInformation.value;
    var h := Head(p, d.profileSummary, d.skills);
    HeadOneLine(p, d.profileSummary, d.skills);
    var w := WorkSectionLines(d.workExperience);
    if d.workExperience.GetOr([]) != [] {
      WorkLinesOneLine(d.workExperience.value, 0);
    }
    IndentOneLine(w);
    var e := EducationSectionLines(d.education);
    if d.education.GetOr([]) != [] {
      EducationLinesOneLine(d.education.value, 0);
    }
    IndentOneLine(e);
    NoNewlinesAppend(h, Indent(w));
    NoNewlinesAppend(h + Indent(w), ["", "Education:"]);
    NoNewlinesAppend(h + Indent(w) + ["", "Education:"], Indent(e));
    NoNewlinesAppend(h + Indent(w) + ["", "Education:"] + Indent(e), [""]);
  }

  /**
   * When no field holds a newline, splitting the rendered text at newlines
   * gives exactly the résumé's lines.
   */
  lemma SplitCreateResume(d: Details)
    requires d.personalInformation.Some? && SingleLine(d)
    ensures Split(CreateResume(d), '\n') == ResumeLines(d)
  {
    ResumeLinesOneLine(d);
    SplitOfJoin(ResumeLines(d), '\n');
  }

  /** A slice that lies wholly in the second part of an append. */
  lemma SliceAfter(a: seq<string>, b: seq<string>, lo: nat, hi: nat)
    requires |a| <= lo <= hi <= |a| + |b|
    ensures (a + b)[lo..hi] == b[lo - |a|..hi - |a|]
  {
  }

  /** Entry `i` of the list owns lines `4 * (i - k)` to `4 * (i - k) + 3`. */
  lemma {:induction false} WorkLinesFromAt(entries: seq<WorkEntry>, k: nat)
    requires k <= |entries|
    ensures |WorkLinesFrom(entries, k)| == 4 * (|entries| - k)
    ensures forall i :: k <= i < |entries| ==>
              WorkLinesFrom(entries, k)[4 * (i - k)..4 * (i - k) + 4] == WorkEntryLines(i + 1, entries[i])
    decreases |entries| - k
  {
    if k < |entries| {
      WorkLinesFromAt(entries, k + 1);
      var first := WorkEntryLines(k + 1, entries[k]);
      var rest := WorkLinesFrom(entries, k + 1);
      forall i | k <= i < |entries|
        ensures (first + rest)[4 * (i - k)..4 * (i - k) + 4] == WorkEntryLines(i + 1, entries[i])
      {
        if i > k {
          SliceAfter(first, rest, 4 * (i - k), 4 * (i - k) + 4);
        } else {
          assert (first + rest)[0..4] == first;
        }
      }
    }
  }

  /** Entry `i` of the list owns lines `3 * (i - k)` to `3 * (i - k) + 2`. */
  lemma {:induction false} EducationLinesFromAt(entries: seq<EducationEntry>, k: nat)
    requires k <= |entries|
    ensures |EducationLinesFrom(entries, k)| == 3 * (|entries| - k)
    ensures forall i :: k <= i < |entries| ==>
              EducationLinesFrom(entries, k)[3 * (i - k)..3 * (i - k) + 3] == EducationEntryLines(i + 1, entries[i])
    decreases |entries| - k
  {
    if k < |entries| {
      EducationLinesFromAt(entries, k + 1);
      var first := EducationEntryLines(k + 1, entries[k]);
      var rest := EducationLinesFrom(entries, k + 1);
      forall i | k <= i < |entries|
        ensures (first + rest)[3 * (i - k)..3 * (i - k) + 3] == EducationEntryLines(i + 1, entries[i])
      {
        if i > k {
          SliceAfter(first, rest, 3 * (i - k), 3 * (i - k) + 3);
        } else {
          assert (first + rest)[0..3] == first;
        }
      }
    }
  }

  /**
   * A non-empty work list renders, line by line, as four lines per entry in
   * input order: the entry's number counting from 1, then each field or the
   * placeholder.
   */
  lemma WorkSectionRendering(entries: seq<WorkEntry>)
    requires entries != []
    requires forall j :: 0 <= j < |entries| ==> OneLineWork(entries[j])
    ensures var lines := Split(WorkSection(Some(entries)), '\n');
      && |lines| == 4 * |entries|
      && forall i :: 0 <= i < |entries| ==>
           && lines[4 * i] == NatToString(i + 1) + ") Company: " + Field(entries[i].company)
           && lines[4 * i + 1] == "   Position: " + Field(entries[i].position)
           && lines[4 * i + 2] == "   Duration: " + Field(entries[i].duration)
           && lines[4 * i + 3] == "  Description: " + Field(entries[i].description)
  {
    WorkSectionSplit(entries);
    WorkLinesFromAt(entries, 0);
    WorkEntriesAt(WorkLinesFrom(entries, 0), entries);
  }

  lemma WorkEntriesAt(lines: seq<string>, entries: seq<WorkEntry>)
    requires |lines| == 4 * |entries|
    requires forall i :: 0 <= i < |entries| ==> lines[4 * i..4 * i + 4] == WorkEntryLines(i + 1, entries[i])
    ensures forall i :: 0 <= i < |entries| ==>
              && lines[4 * i] == NatToString(i + 1) + ") Company: " + Field(entries[i].company)
              && lines[4 * i + 1] == "   Position: " + Field(entries[i].position)
              && lines[4 * i + 2] == "   Duration: " + Field(entries[i].duration)
              && lines[4 * i + 3] == "  Description: " + Field(entries[i].description)
  {
    forall i | 0 <= i < |entries|
      ensures lines[4 * i] == NatToString(i + 1) + ") Company: " + Field(entries[i].company)
      ensures lines[4 * i + 1] == "   Position: " + Field(entries[i].position)
      ensures lines[4 * i + 2] == "   Duration: " + Field(entries[i].duration)
      ensures lines[4 * i + 3] == "  Description: " + Field(entries[i].description)
    {
      WorkEntryAt(lines, i, entries[i]);
    }
  }

  lemma WorkSectionSplit(entries: seq<WorkEntry>)
    requires entries != []
    requires forall j :: 0 <= j < |entries| ==> OneLineWork(entries[j])
    ensures Split(WorkSection(Some(entries)), '\n') == WorkLinesFrom(entries, 0)
  {
    WorkSectionAsLines(Some(entries));
    WorkLinesOneLine(entries, 0);
    SplitOfJoin(WorkLinesFrom(entries, 0), '\n');
  }

  lemma WorkEntryAt(lines: seq<string>, i: nat, we: WorkEntry)
    requires 4 * i + 4 <= |lines| && lines[4 * i..4 * i + 4] == WorkEntryLines(i + 1, we)
    ensures lines[4 * i] == NatToString(i + 1) + ") Company: " + Field(we.company)
    ensures lines[4 * i + 1] == "   Position: " + Field(we.position)
    ensures lines[4 * i + 2] == "   Duration: " + Field(we.duration)
    ensures lines[4 * i + 3] == "  Description: " + Field(we.description)
  {
    var block := lines[4 * i..4 * i + 4];
    assert lines[4 * i] == block[0] && lines[4 * i + 1] == block[1];
    assert lines[4 * i + 2] == block[2] && lines[4 * i + 3] == block[3];
  }

  /**
   * A non-empty education list renders, line by line, as three lines per
   * entry in input order: the entry's number counting from 1, then each field
   * or the placeholder.
   */
  lemma EducationSectionRendering(entries: seq<EducationEntry>)
    requires entries != []
    requires forall j :: 0 <= j < |entries| ==> OneLineEducation(entries[j])
    ensures var lines := Split(EducationSection(Some(entries)), '\n');
      && |lines| == 3 * |entries|
      && forall i :: 0 <= i < |entries| ==>
           && lines[3 * i] == NatToString(i + 1) + ") School: " + Field(entries[i].institution)
           && lines[3 * i + 1] == "   Degree: " + Field(entries[i].degree)
           && lines[3 * i + 2] == "   Duration: " + Field(entries[i].duration)
  {
    EducationSectionSplit(entries);
    EducationLinesFromAt(entries, 0);
    EducationEntriesAt(EducationLinesFrom(entries, 0), entries);
  }

  lemma EducationEntriesAt(lines: seq<string>, entries: seq<EducationEntry>)
    requires |lines| == 3 * |entries|
    requires forall i :: 0 <= i < |entries| ==> lines[3 * i..3 * i + 3] == EducationEntryLines(i + 1, entries[i])
    ensures forall i :: 0 <= i < |entries| ==>
              && lines[3 * i] == NatToString(i + 1) + ") School: " + Field(entries[i].institution)
              && lines[3 * i + 1] == "   Degree: " + Field(entries[i].degree)
              && lines[3 * i + 2] == "   Duration: " + Field(entries[i].duration)
  {
    forall i | 0 <= i < |entries|
      ensures lines[3 * i] == NatToString(i + 1) + ") School: " + Field(entries[i].institution)
      ensures lines[3 * i + 1] == "   Degree: " + Field(entries[i].degree)
      ensures lines[3 * i + 2] == "   Duration: " + Field(entries[i].duration)
    {
      EducationEntryAt(lines, i, entries[i]);
    }
  }

  lemma EducationSectionSplit(entries: seq<EducationEntry>)
    requires entries != []
    requires forall j :: 0 <= j < |entries| ==> OneLineEducation(entries[j])
    ensures Split(EducationSection(Some(entries)), '\n') == EducationLinesFrom(entries, 0)
  {
    EducationSectionAsLines(Some(entries));
    EducationLinesOneLine(entries, 0);
    SplitOfJoin(EducationLinesFrom(entries, 0), '\n');
  }

  lemma EducationEntryAt(lines: seq<string>, i: nat, edu: EducationEntry)
    requires 3 * i + 3 <= |lines| && lines[3 * i..3 * i + 3] == EducationEntryLines(i + 1, edu)
    ensures lines[3 * i] == NatToString(i + 1) + ") School: " + Field(edu.institution)
    ensures lines[3 * i + 1] == "   Degree: " + Field(edu.degree)
    ensures lines[3 * i + 2] == "   Duration: " + Field(edu.duration)
  {
    var block := lines[3 * i..3 * i + 3];
    assert lines[3 * i] == block[0] && lines[3 * i + 1] == block[1] && lines[3 * i + 2] == block[2];
  }

  /**
   * The rendered résumé, line by line: the five headers in their fixed order,
   * the personal block first, each absent field as the placeholder, and only
   * the first line of each list section indented by the template.
   */
  lemma ResumeLayout(d: Details)
    requires d.personalInformation.Some? && SingleLine(d)
    ensures var lines := Split(CreateResume(d), '\n');
      var p := d.personalInformation.value;
      var w := WorkSectionLines(d.workExperience);
      var e := EducationSectionLines(d.education);
      && |lines| == 16 + |w| + |e|
      && lines[..13] == Head(p, d.profileSummary, d.skills)
      && lines[13..13 + |w|] == Indent(w)
      && lines[13 + |w|] == "" && lines[14 + |w|] == "Education:"
      && lines[15 + |w|..15 + |w| + |e|] == Indent(e)
      && lines[15 + |w| + |e|] == ""
  {
    SplitCreateResume(d);
    ResumeLinesLayout(d);
  }

  lemma ResumeLinesLayout(d: Details)
    requires d.personalInformation.Some?
    ensures var lines := ResumeLines(d);
      var p := d.personalInformation.value;
      var w := WorkSectionLines(d.workExperience);
      var e := EducationSectionLines(d.education);
      && |lines| == 16 + |w| + |e|
      && lines[..13] == Head(p, d.profileSummary, d.skills)
      && lines[13..13 + |w|] == Indent(w)
      && lines[13 + |w|] == "" && lines[14 + |w|] == "Education:"
      && lines[15 + |w|..15 + |w| + |e|] == Indent(e)
      && lines[15 + |w| + |e|] == ""
  {
    var p := d.personalInformation.value;
    LayoutOfLines(Head(p, d.profileSummary, d.skills), Indent(WorkSectionLines(d.workExperience)),
                  Indent(EducationSectionLines(d.education)));
  }

  /** Where each part of a five-part line list lands. */
  lemma LayoutOfLines(h: seq<string>, w: seq<string>, e: seq<string>)
    requires |h| == 13
    ensures var lines := h + w + ["", "Education:"] + e + [""];
      && |lines| == 16 + |w| + |e|
      && lines[..13] == h
      && lines[13..13 + |w|] == w
      && lines[13 + |w|] == "" && lines[14 + |w|] == "Education:"
      && lines[15 + |w|..15 + |w| + |e|] == e
      && lines[15 + |w| + |e|] == ""
  {
    var lines := h + w + ["", "Education:"] + e + [""];
    assert lines[..13] == h;
    assert lines[13..13 + |w|] == w;
    assert lines[15 + |w|..15 + |w| + |e|] == e;
  }
}
