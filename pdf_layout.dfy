/**
 * The part of `save_pdf` that decides where each line of the résumé text
 * goes: the text is stripped and split into lines, a two-state machine sends
 * the personal block to the top of the page and everything else below it, and
 * each of the other lines is drawn either as a section title with a rule
 * under it or as body text after a page-overflow check.
 */
module PdfLayout {
  import opened Strings

  /** The substring that switches the personal block on. */
  const PersonalHeader := "Personal Information:"

  /** The prefixes that mark a section title, in the order the code lists them. */
  const SectionTitles: seq<string> := ["Skills:", "Professional Summary:", "Work Experience:", "Education:"]

  /** `resume_text.strip().split('\n')`. */
  function PdfLines(text: string): (lines: seq<string>)
    ensures |lines| >= 1
    ensures forall k :: 0 <= k < |lines| ==> '\n' !in lines[k]
    ensures Join("\n", lines) == Strip(text)
  {
    Split(Strip(text), '\n')
  }

  // ---------------------------------------------------------------------------
  // The personal-block state machine

  /**
   * One step of the `is_personal_section` flag on reading `line`: the header
   * sets it, and a set flag survives every line that is not blank.
   */
  function Step(inPersonal: bool, line: string): (flag: bool)
    ensures flag <==> Contains(line, PersonalHeader) || (inPersonal && !IsBlank(line))
  {
    if Contains(line, PersonalHeader) then true
    else if inPersonal && Strip(line) == "" then false
    else inPersonal
  }

  /** The flag after reading every line of `lines`, starting from `False`. */
  function FlagAfter(lines: seq<string>): bool
    decreases |lines|
  {
    if lines == [] then false else Step(FlagAfter(lines[..|lines| - 1]), lines[|lines| - 1])
  }

  /**
   * Line `i` lies in the personal block: some line at or before it contains
   * the header, and no line after that one, up to and including line `i`,
   * strips to nothing.
   */
  ghost predicate InPersonalBlock(lines: seq<string>, i: nat)
    requires i < |lines|
  {
    exists k :: 0 <= k <= i && Contains(lines[k], PersonalHeader)
                && forall j :: k < j <= i ==> !IsBlank(lines[j])
  }

  /** For each line, whether it lies in the personal block. */
  ghost function PersonalMask(lines: seq<string>): (mask: seq<bool>)
    ensures |mask| == |lines|
    ensures forall i :: 0 <= i < |lines| ==> (mask[i] <==> InPersonalBlock(lines, i))
  {
    seq(|lines|, i requires 0 <= i < |lines| => InPersonalBlock(lines, i))
  }

  /**
   * The first `n` lines whose mask entry is `want`, in their input order:
   * the personal list for `true`, the other list for `false`.
   */
  function Select(lines: seq<string>, mask: seq<bool>, n: nat, want: bool): (r: seq<string>)
    requires n <= |lines| == |mask|
    ensures |r| <= n
    decreases n
  {
    if n == 0 then []
    else Select(lines, mask, n - 1, want) + (if mask[n - 1] == want then [lines[n - 1]] else [])
  }

  /**
   * The partition loop of `save_pdf`: `personal` gets the lines of the
   * personal block and `other` the rest, each in input order.
   */
  method SplitPersonal(lines: seq<string>) returns (personal: seq<string>, other: seq<string>)
    ensures personal == Select(lines, PersonalMask(lines), |lines|, true)
    ensures other == Select(lines, PersonalMask(lines), |lines|, false)
  {
    ghost var mask := PersonalMask(lines);
    personal := [];
    other := [];
    var inPersonal := false;
    for i := 0 to |lines|
      invariant inPersonal == FlagAfter(lines[..i])
      invariant personal == Select(lines, mask, i, true)
      invariant other == Select(lines, mask, i, false)
    {
      var line := lines[i];
      if Contains(line, PersonalHeader) {
        inPersonal := true;
      } else if inPersonal && Strip(line) == "" {
        inPersonal := false;
      }
      MaskStep(lines, i);
      SelectStep(lines, mask, i + 1, true);
      SelectStep(lines, mask, i + 1, false);
      if inPersonal {
        personal := personal + [line];
      } else {
        other := other + [line];
      }
    }
  }

  // ---------------------------------------------------------------------------
  // Section titles and the drawing plan

  /**
   * `any(line.startswith(title) for title in section_titles)`: the line
   * starts with one of the four titles.
   */
  function IsSectionHeader(line: string): (b: bool)
    ensures b <==> StartsWith(line, "Skills:") || StartsWith(line, "Professional Summary:")
                   || StartsWith(line, "Work Experience:") || StartsWith(line, "Education:")
  {
    assert SectionTitles[0] == "Skills:" && SectionTitles[1] == "Professional Summary:";
    assert SectionTitles[2] == "Work Experience:" && SectionTitles[3] == "Education:";
    exists t :: t in SectionTitles && StartsWith(line, t)
  }

  /** What the drawing loop does with one of the other lines. */
  datatype DrawStep =
    | Titled(line: string)   // drawn, then a rule under it, no overflow check
    | Checked(line: string)  // page-overflow check, then drawn

  /** The drawing loop over `other_lines`, one step per line in order. */
  method PlanLines(other: seq<string>) returns (steps: seq<DrawStep>)
    ensures |steps| == |other|
    ensures forall i :: 0 <= i < |steps| ==> steps[i].line == other[i]
    ensures forall i :: 0 <= i < |steps| ==> (steps[i].Checked? <==> !IsSectionHeader(other[i]))
  {
    steps := [];
    for i := 0 to |other|
      invariant |steps| == i
      invariant forall k :: 0 <= k < i ==> steps[k].line == other[k]
      invariant forall k :: 0 <= k < i ==> (steps[k].Checked? <==> !IsSectionHeader(other[k]))
    {
      var line := other[i];
      if IsSectionHeader(line) {
        steps := steps + [Titled(line)];
      } else {
        steps := steps + [Checked(line)];
      }
    }
  }

  /** How many overflow checks a plan makes. */
  function CheckCount(steps: seq<DrawStep>): nat
    decreases |steps|
  {
    if steps == [] then 0 else CheckCount(steps[..|steps| - 1]) + (if steps[|steps| - 1].Checked? then 1 else 0)
  }

  /** How many of `lines` are not section titles. */
  function BodyCount(lines: seq<string>): nat
    decreases |lines|
  {
    if lines == [] then 0 else BodyCount(lines[..|lines| - 1]) + (if IsSectionHeader(lines[|lines| - 1]) then 0 else 1)
  }

  // ---------------------------------------------------------------------------
  // Lemmas

  /** `line.strip() == ""` exactly when the line is all whitespace. */
  lemma StripEmptyIsBlank(line: string)
    ensures Strip(line) == "" <==> IsBlank(line)
  {
  }

  /** A line that strips to nothing cannot contain the header. */
  lemma BlankHasNoHeader(line: string)
    requires IsBlank(line)
    ensures !Contains(line, PersonalHeader)
  {
    forall i | 0 <= i <= |line| - |PersonalHeader| ensures !OccursAt(line, PersonalHeader, i) {
      assert line[i..i + |PersonalHeader|][0] == line[i] != PersonalHeader[0];
    }
  }

  /** The flag the loop carries is the personal-block predicate. */
  lemma {:induction false} FlagIsInPersonalBlock(lines: seq<string>, i: nat)
    requires i < |lines|
    ensures FlagAfter(lines[..i + 1]) <==> InPersonalBlock(lines, i)
    decreases i
  {
    FlagStep(lines, i);
    if Contains(lines[i], PersonalHeader) {
      HeaderLineIsPersonal(lines, i);
    } else if Strip(lines[i]) == "" {
      ClosedAfterBlank(lines, i, i);
    } else if i == 0 {
      FirstLineFlag(lines);
      BeforeHeaderIsOther(lines, 0);
    } else {
      FlagIsInPersonalBlock(lines, i - 1);
      assert lines[..i] == lines[..i - 1 + 1];
      StripEmptyIsBlank(lines[i]);
      BlockContinues(lines, i);
    }
  }

  /** Before the first line the flag is off. */
  lemma FirstLineFlag(lines: seq<string>)
    requires 0 < |lines|
    ensures FlagAfter(lines[..0]) == false
  {
    assert lines[..0] == [];
  }

  /** One turn of the partition loop: the flag's step is the mask entry. */
  lemma MaskStep(lines: seq<string>, i: nat)
    requires i < |lines|
    ensures FlagAfter(lines[..i + 1]) == Step(FlagAfter(lines[..i]), lines[i]) == PersonalMask(lines)[i]
  {
    FlagStep(lines, i);
    FlagIsInPersonalBlock(lines, i);
  }

  /** The flag after line `i` is one step from the flag before it. */
  lemma FlagStep(lines: seq<string>, i: nat)
    requires i < |lines|
    ensures FlagAfter(lines[..i + 1]) == Step(FlagAfter(lines[..i]), lines[i])
  {
    var pre := lines[..i + 1];
    assert pre[..|pre| - 1] == lines[..i];
    assert pre[|pre| - 1] == lines[i];
  }

  /** A non-blank line without the header stays on the side of the line before it. */
  lemma BlockContinues(lines: seq<string>, i: nat)
    requires 0 < i < |lines| && !Contains(lines[i], PersonalHeader) && !IsBlank(lines[i])
    ensures InPersonalBlock(lines, i) <==> InPersonalBlock(lines, i - 1)
  {
    if InPersonalBlock(lines, i) {
      var k :| 0 <= k <= i && Contains(lines[k], PersonalHeader)
               && forall j :: k < j <= i ==> !IsBlank(lines[j]);
      assert k < i;
      assert InPersonalBlock(lines, i - 1);
    }
    if InPersonalBlock(lines, i - 1) {
      var k :| 0 <= k <= i - 1 && Contains(lines[k], PersonalHeader)
               && forall j :: k < j <= i - 1 ==> !IsBlank(lines[j]);
      assert forall j :: k < j <= i ==> !IsBlank(lines[j]);
    }
  }

  /** How many times `x` occurs in `s`. */
  function Occurrences(s: seq<string>, x: string): nat
    decreases |s|
  {
    if s == [] then 0 else Occurrences(s[..|s| - 1], x) + (if s[|s| - 1] == x then 1 else 0)
  }

  /** Appending one line adds one occurrence of it and of nothing else. */
  lemma OccurrencesSnoc(s: seq<string>, y: string, x: string)
    ensures Occurrences(s + [y], x) == Occurrences(s, x) + if y == x then 1 else 0
  {
    assert (s + [y])[..|s|] == s;
  }

  /** `Occurrences` is the multiplicity in the multiset of the sequence. */
  lemma {:induction false} OccurrencesAreMultiplicity(s: seq<string>, x: string)
    ensures multiset(s)[x] == Occurrences(s, x)
    decreases |s|
  {
    if s != [] {
      var n := |s| - 1;
      OccurrencesAreMultiplicity(s[..n], x);
      assert s == s[..n] + [s[n]];
    }
  }

  /** One more line lands on exactly one of the two sides. */
  lemma SelectStep(lines: seq<string>, mask: seq<bool>, n: nat, want: bool)
    requires 0 < n <= |lines| == |mask|
    ensures mask[n - 1] == want ==> Select(lines, mask, n, want) == Select(lines, mask, n - 1, want) + [lines[n - 1]]
    ensures mask[n - 1] != want ==> Select(lines, mask, n, want) == Select(lines, mask, n - 1, want)
  {
    if mask[n - 1] != want {
      assert Select(lines, mask, n - 1, want) + [] == Select(lines, mask, n - 1, want);
    }
  }

  lemma PrefixSnoc(lines: seq<string>, n: nat)
    requires 0 < n <= |lines|
    ensures lines[..n] == lines[..n - 1] + [lines[n - 1]]
  {
  }

  /** The two lists together are as long as the input. */
  lemma {:induction false} PartitionLength(lines: seq<string>, mask: seq<bool>, n: nat)
    requires n <= |lines| == |mask|
    ensures |Select(lines, mask, n, true)| + |Select(lines, mask, n, false)| == n
    decreases n
  {
    if n > 0 {
      PartitionLength(lines, mask, n - 1);
      SelectStep(lines, mask, n, true);
      SelectStep(lines, mask, n, false);
    }
  }

  /** Each line occurs as often in the two lists together as in the input. */
  lemma {:induction false} PartitionCounts(lines: seq<string>, mask: seq<bool>, n: nat, x: string)
    requires n <= |lines| == |mask|
    ensures Occurrences(Select(lines, mask, n, true), x) + Occurrences(Select(lines, mask, n, false), x)
         == Occurrences(lines[..n], x)
    decreases n
  {
    if n > 0 {
      PartitionCounts(lines, mask, n - 1, x);
      PrefixSnoc(lines, n);
      OccurrencesSnoc(lines[..n - 1], lines[n - 1], x);
      SelectStep(lines, mask, n, true);
      SelectStep(lines, mask, n, false);
      if mask[n - 1] {
        OccurrencesSnoc(Select(lines, mask, n - 1, true), lines[n - 1], x);
      } else {
        OccurrencesSnoc(Select(lines, mask, n - 1, false), lines[n - 1], x);
      }
    }
  }

  /** Every line goes to exactly one of the two lists, and none is invented. */
  lemma PartitionIsComplete(lines: seq<string>, mask: seq<bool>)
    requires |lines| == |mask|
    ensures |Select(lines, mask, |lines|, true)| + |Select(lines, mask, |lines|, false)| == |lines|
    ensures multiset(Select(lines, mask, |lines|, true)) + multiset(Select(lines, mask, |lines|, false)) == multiset(lines)
  {
    PartitionLength(lines, mask, |lines|);
    var personal, other := Select(lines, mask, |lines|, true), Select(lines, mask, |lines|, false);
    forall x
      ensures Occurrences(personal, x) + Occurrences(other, x) == Occurrences(lines, x)
    {
      WholeCounts(lines, mask, x);
    }
    MultisetOfCounts(personal, other, lines);
  }

  lemma WholeCounts(lines: seq<string>, mask: seq<bool>, x: string)
    requires |lines| == |mask|
    ensures Occurrences(Select(lines, mask, |lines|, true), x) + Occurrences(Select(lines, mask, |lines|, false), x)
         == Occurrences(lines, x)
  {
    PartitionCounts(lines, mask, |lines|, x);
    assert lines[..|lines|] == lines;
  }

  /** Two sequences whose occurrence counts add up to a third's are, together, its permutation. */
  lemma MultisetOfCounts(a: seq<string>, b: seq<string>, c: seq<string>)
    requires forall x :: Occurrences(a, x) + Occurrences(b, x) == Occurrences(c, x)
    ensures multiset(a) + multiset(b) == multiset(c)
  {
    forall x
      ensures (multiset(a) + multiset(b))[x] == multiset(c)[x]
    {
      OccurrencesAreMultiplicity(a, x);
      OccurrencesAreMultiplicity(b, x);
      OccurrencesAreMultiplicity(c, x);
    }
  }

  /** A line containing the header always goes to the personal list. */
  lemma HeaderLineIsPersonal(lines: seq<string>, i: nat)
    requires i < |lines| && Contains(lines[i], PersonalHeader)
    ensures InPersonalBlock(lines, i)
  {
  }

  /** A line that strips to nothing always goes to the other list. */
  lemma BlankLineIsOther(lines: seq<string>, i: nat)
    requires i < |lines| && Strip(lines[i]) == ""
    ensures !InPersonalBlock(lines, i)
  {
    if InPersonalBlock(lines, i) {
      var k :| 0 <= k <= i && Contains(lines[k], PersonalHeader)
               && forall j :: k < j <= i ==> !IsBlank(lines[j]);
      if k == i {
        BlankHasNoHeader(lines[i]);
      }
      assert false;
    }
  }

  /** Lines before the first header line go to the other list. */
  lemma BeforeHeaderIsOther(lines: seq<string>, i: nat)
    requires i < |lines|
    requires forall k :: 0 <= k <= i ==> !Contains(lines[k], PersonalHeader)
    ensures !InPersonalBlock(lines, i)
  {
  }

  /**
   * From a header line up to, but not including, the first line that strips
   * to nothing, every line goes to the personal list.
   */
  lemma UpToBlankIsPersonal(lines: seq<string>, h: nat, i: nat)
    requires h <= i < |lines| && Contains(lines[h], PersonalHeader)
    requires forall j :: h < j <= i ==> Strip(lines[j]) != ""
    ensures InPersonalBlock(lines, i)
  {
    forall j | h < j <= i ensures !IsBlank(lines[j]) {
      StripEmptyIsBlank(lines[j]);
    }
  }

  /**
   * After a line that strips to nothing, lines go to the other list until
   * the next line containing the header.
   */
  lemma ClosedAfterBlank(lines: seq<string>, b: nat, i: nat)
    requires b <= i < |lines| && Strip(lines[b]) == ""
    requires forall k :: b <= k <= i ==> !Contains(lines[k], PersonalHeader)
    ensures !InPersonalBlock(lines, i)
  {
    StripEmptyIsBlank(lines[b]);
  }

  /**
   * When the mask picks exactly lines `a` to `b - 1`, the personal list is
   * that slice and the other list is what surrounds it.
   */
  lemma PartitionOfBlock(lines: seq<string>, mask: seq<bool>, a: nat, b: nat, n: nat)
    requires a <= b <= n <= |lines| == |mask|
    requires forall i :: 0 <= i < n ==> (mask[i] <==> a <= i < b)
    ensures Select(lines, mask, n, true) == lines[a..b]
    ensures Select(lines, mask, n, false) == lines[..a] + lines[b..n]
  {
    SelectedBlock(lines, mask, a, b, n);
    RestOfBlock(lines, mask, a, b, n);
  }

  lemma {:induction false} SelectedBlock(lines: seq<string>, mask: seq<bool>, a: nat, b: nat, n: nat)
    requires a <= b <= n <= |lines| == |mask|
    requires forall i :: 0 <= i < n ==> (mask[i] <==> a <= i < b)
    ensures Select(lines, mask, n, true) == lines[a..b]
    decreases n
  {
    if n > 0 {
      SelectStep(lines, mask, n, true);
      if n > b {
        SelectedBlock(lines, mask, a, b, n - 1);
      } else if n > a {
        SelectedBlock(lines, mask, a, n - 1, n - 1);
        assert lines[a..n] == lines[a..n - 1] + [lines[n - 1]];
      } else {
        SelectedBlock(lines, mask, n - 1, n - 1, n - 1);
      }
    }
  }

  lemma {:induction false} RestOfBlock(lines: seq<string>, mask: seq<bool>, a: nat, b: nat, n: nat)
    requires a <= b <= n <= |lines| == |mask|
    requires forall i :: 0 <= i < n ==> (mask[i] <==> a <= i < b)
    ensures Select(lines, mask, n, false) == lines[..a] + lines[b..n]
    decreases n
  {
    if n > 0 {
      SelectStep(lines, mask, n, false);
      if n > b {
        RestOfBlock(lines, mask, a, b, n - 1);
        assert lines[b..n] == lines[b..n - 1] + [lines[n - 1]];
      } else if n > a {
        RestOfBlock(lines, mask, a, n - 1, n - 1);
        assert lines[n - 1..n - 1] == lines[n..n];
      } else {
        RestOfBlock(lines, mask, n - 1, n - 1, n - 1);
        assert lines[..n] == lines[..n - 1] + [lines[n - 1]];
        assert lines[n - 1..n - 1] == lines[n..n];
      }
    }
  }

  /** A line that begins like the personal header is never a section title. */
  lemma PersonalHeaderIsNotSectionHeader(line: string)
    requires StartsWith(line, PersonalHeader)
    ensures !IsSectionHeader(line)
  {
    assert line[0] == 'P' && line[1] == 'e';
  }

  /** A line that begins with a space or a digit is never a section title. */
  lemma IndentedIsNotSectionHeader(line: string)
    requires |line| > 0 && (line[0] == ' ' || '0' <= line[0] <= '9')
    ensures !IsSectionHeader(line)
  {
  }

  /** A plan makes one overflow check per line that is not a section title. */
  lemma {:induction false} PlanCheckCount(other: seq<string>, steps: seq<DrawStep>)
    requires |steps| == |other|
    requires forall i :: 0 <= i < |steps| ==> (steps[i].Checked? <==> !IsSectionHeader(other[i]))
    ensures CheckCount(steps) == BodyCount(other)
    decreases |steps|
  {
    if steps != [] {
      var n := |steps| - 1;
      PlanCheckCount(other[..n], steps[..n]);
    }
  }
}
