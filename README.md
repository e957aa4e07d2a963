# EY ATS résumé pipeline, modelled in Dafny

This project models the core of the one-file Streamlit application
`Automated-resume-parsing-and-matcing-system-main/app.py`:

- `create_resume(details)`: turns the record decoded from the model's JSON
  answer into a fixed-layout résumé text. Every missing value becomes
  `Not specified`. Empty work and education lists become the placeholder too.
- The file-name rule `<Name>_generated_resume.pdf`. A missing name becomes
  `Not_specified`.
- The line logic of `save_pdf`:
  - the text is stripped and split into lines;
  - a two-state flag sends the personal block to the top of the page and the
    other lines below it;
  - each other line is drawn either as a section title with a rule under it,
    or as body text after a page-overflow check.
- `get_gemini_response`: the retry loop. It tries at most `retries` times,
  returns the first non-empty text, reports every exception as
  `Attempt <n> failed: <message>`, and sleeps two seconds after every
  attempt that does not return.
- The order of the branches after a submit: empty answer, undecodable
  answer, record without personal information (a `KeyError`), rendered
  résumé.

Python's string operations are written out in module `Strings`:

- `str.strip` uses the `str.isspace` code points;
- `split('\n')`, `'sep'.join`, `in`, `startswith` and `str(int)` are defined there too.

The record is a datatype in which every key is an `Option`, so `dict.get`
with a default becomes `GetOr`.

Modules:

| module | file | models |
|---|---|---|
| `Wrappers` | `wrappers.dfy` | `Option` |
| `Strings` | `strings.dfy` | the Python string operations the core uses |
| `ResumeText` | `resume_text.dfy` | `create_resume`, the PDF file name, the résumé as a list of lines |
| `PdfLayout` | `pdf_layout.dfy` | the partition loop and the drawing loop of `save_pdf` (imperative, as in the source) |
| `GeminiClient` | `gemini_client.dfy` | the retry loop of `get_gemini_response` (imperative, as in the source); the model is an oracle |
| `Pipeline` | `pipeline.dfy` | the branch order after a submit; what `save_pdf` does with a rendered résumé |

## Model

| member | source | states |
|---|---|---|
| Strings.Strip | Automated-resume-parsing-and-matcing-system-main/app.py:103 | `strip()` leaves no whitespace at either end, and it gives the empty string exactly when the input is all whitespace |
| Strings.StripIsTrimmedSubstring | Automated-resume-parsing-and-matcing-system-main/app.py:103 | the stripped text is a contiguous part of the input, and everything cut off on either side is whitespace |
| Strings.Split | Automated-resume-parsing-and-matcing-system-main/app.py:103 | `split('\n')` gives at least one piece, no piece holds a newline, and joining the pieces with a newline gives back the input |
| Strings.SplitOfJoin | Automated-resume-parsing-and-matcing-system-main/app.py:103 | splitting a newline-join of newline-free pieces gives back exactly those pieces |
| Strings.NatToString | Automated-resume-parsing-and-matcing-system-main/app.py:62 | `str(n)` is a non-empty string of decimal digits, with no leading zero unless `n` is 0, and it reads back as `n` |
| Strings.Join | Automated-resume-parsing-and-matcing-system-main/app.py:61 | `"\n".join(parts)` of a non-empty list begins with its first part (and `Split` undoes it, see `SplitOfJoin`) |
| ResumeText.SkillsLine | Automated-resume-parsing-and-matcing-system-main/app.py:58 | an absent list reads `Proficient in Not specified.`, an empty list `Proficient in .`, otherwise the skills joined by `, ` |
| ResumeText.WorkBlock | Automated-resume-parsing-and-matcing-system-main/app.py:62 | the block of one work entry is its four lines (number and company, position, duration, description) joined by newlines |
| ResumeText.EducationBlock | Automated-resume-parsing-and-matcing-system-main/app.py:68 | the block of one education entry is its three lines (number and school, degree, duration) joined by newlines |
| ResumeText.WorkSection | Automated-resume-parsing-and-matcing-system-main/app.py:60-64 | the work section is `Not specified` exactly when the list is absent or empty |
| ResumeText.EducationSection | Automated-resume-parsing-and-matcing-system-main/app.py:66-70 | the education section is `Not specified` exactly when the list is absent or empty |
| ResumeText.WorkSectionRendering | Automated-resume-parsing-and-matcing-system-main/app.py:60-64 | when no field holds a newline, a non-empty work list renders as four lines per entry, in input order: entry number counting from 1, company, position, duration, description, each a field or the placeholder |
| ResumeText.EducationSectionRendering | Automated-resume-parsing-and-matcing-system-main/app.py:66-70 | when no field holds a newline, a non-empty education list renders as three lines per entry, in input order: entry number counting from 1, school, degree, duration |
| ResumeText.WorkSectionAsLines | Automated-resume-parsing-and-matcing-system-main/app.py:60-64 | for every record, the work section is its lines (the placeholder, or the blocks' lines in order) joined by newlines |
| ResumeText.EducationSectionAsLines | Automated-resume-parsing-and-matcing-system-main/app.py:66-70 | for every record, the education section is its lines (the placeholder, or the blocks' lines in order) joined by newlines |
| ResumeText.CreateResume | Automated-resume-parsing-and-matcing-system-main/app.py:72-90 | for every record, the rendered text is the fixed list of résumé lines joined by newlines |
| ResumeText.SplitCreateResume | Automated-resume-parsing-and-matcing-system-main/app.py:72-90 | when no field holds a newline, splitting the rendered text at newlines gives exactly that list of lines |
| ResumeText.ResumeLayout | Automated-resume-parsing-and-matcing-system-main/app.py:72-90 | when no field holds a newline, line by line: an empty first line, the personal block, the summary, the skills, the work section (only its first line indented), the education section, an empty last line |
| ResumeText.PdfFilename | Automated-resume-parsing-and-matcing-system-main/app.py:183 | the file name ends in `_generated_resume.pdf`; what comes before is the name, or `Not_specified` when the name is absent |
| PdfLayout.PdfLines | Automated-resume-parsing-and-matcing-system-main/app.py:103 | there is at least one line, no line holds a newline, and the lines joined by newlines are the stripped text |
| PdfLayout.SplitPersonal | Automated-resume-parsing-and-matcing-system-main/app.py:109-120 | the loop puts exactly the lines of the personal block into `personal_details` and all the others into `other_lines`, each list in input order |
| PdfLayout.Step | Automated-resume-parsing-and-matcing-system-main/app.py:113-116 | the flag is on after a line exactly when the line contains `Personal Information:`, or the flag was on and the line is not blank |
| PdfLayout.FlagIsInPersonalBlock | Automated-resume-parsing-and-matcing-system-main/app.py:111-116 | after line `i` the flag is on exactly when some line at or before `i` contains `Personal Information:` and no later line up to `i` is blank |
| PdfLayout.MaskStep | Automated-resume-parsing-and-matcing-system-main/app.py:112-117 | one turn of the loop moves the flag exactly as the if/elif does, and the flag it tests is that line's personal-block entry |
| PdfLayout.PartitionIsComplete | Automated-resume-parsing-and-matcing-system-main/app.py:109-120 | the two lists are together as long as the input and are, together, a permutation of it: no line is lost or invented |
| PdfLayout.PartitionLength | Automated-resume-parsing-and-matcing-system-main/app.py:117-120 | after any number of turns, the two lists together hold one line per turn |
| PdfLayout.PartitionCounts | Automated-resume-parsing-and-matcing-system-main/app.py:117-120 | after any number of turns, each line occurs as often in the two lists together as in the lines read so far |
| PdfLayout.HeaderLineIsPersonal | Automated-resume-parsing-and-matcing-system-main/app.py:113-114 | a line containing `Personal Information:` always goes to the personal list |
| PdfLayout.BlankLineIsOther | Automated-resume-parsing-and-matcing-system-main/app.py:115-116 | a line that strips to nothing always goes to the other list |
| PdfLayout.BeforeHeaderIsOther | Automated-resume-parsing-and-matcing-system-main/app.py:111 | lines before the first header line go to the other list |
| PdfLayout.UpToBlankIsPersonal | Automated-resume-parsing-and-matcing-system-main/app.py:113-118 | from a header line up to the first blank line, every line goes to the personal list |
| PdfLayout.ClosedAfterBlank | Automated-resume-parsing-and-matcing-system-main/app.py:115-120 | after a blank line, lines go to the other list until the next header line |
| PdfLayout.PartitionOfBlock | Automated-resume-parsing-and-matcing-system-main/app.py:117-120 | when the personal block is exactly lines `a` to `b - 1`, the personal list is that slice and the other list is what surrounds it |
| PdfLayout.IsSectionHeader | Automated-resume-parsing-and-matcing-system-main/app.py:134-137 | a line is a section title exactly when it starts with one of the four titles |
| PdfLayout.PersonalHeaderIsNotSectionHeader | Automated-resume-parsing-and-matcing-system-main/app.py:134-137 | a line starting with the personal header is never a section title |
| PdfLayout.IndentedIsNotSectionHeader | Automated-resume-parsing-and-matcing-system-main/app.py:134-137 | a line starting with a space or a digit is never a section title |
| PdfLayout.PlanLines | Automated-resume-parsing-and-matcing-system-main/app.py:136-153 | the drawing loop takes one step per other line, in order, and it checks for page overflow exactly on the lines that are not section titles |
| PdfLayout.PlanCheckCount | Automated-resume-parsing-and-matcing-system-main/app.py:145-149 | the number of overflow checks equals the number of lines that are not section titles |
| GeminiClient.ErrorMessageFormat | Automated-resume-parsing-and-matcing-system-main/app.py:23 | an error report is `Attempt `, then a decimal numeral with no leading zero whose value is the attempt's number counted from 1, then ` failed: ` and the exception's message |
| GeminiClient.GetGeminiResponse | Automated-resume-parsing-and-matcing-system-main/app.py:15-25 | at most `retries` calls are made. On success, the reply is the text of the first call whose text is non-empty, and the error reports and sleeps are those of the failed calls before it. Otherwise every call failed and the result is `None` |
| GeminiClient.DefaultRetriesExhausted | Automated-resume-parsing-and-matcing-system-main/app.py:15-25 | with the default of three retries and no successful call, the result is `None` after exactly three attempts, three sleeps and one report per call that raised |
| GeminiClient.FailureEventCounts | Automated-resume-parsing-and-matcing-system-main/app.py:17-24 | `n` failed attempts sleep exactly `n` times and report exactly one error per call that raised |
| GeminiClient.AttemptEventCounts | Automated-resume-parsing-and-matcing-system-main/app.py:22-24 | one failed attempt sleeps once, and reports an error only if its call raised |
| GeminiClient.ErrorReportsNameRaises | Automated-resume-parsing-and-matcing-system-main/app.py:22-23 | every error report names an attempt, counted from 1, whose call raised, and carries that exception's message |
| GeminiClient.FailureEventsEndWithSleep | Automated-resume-parsing-and-matcing-system-main/app.py:24 | after any failed attempt, the last event is a two-second sleep |
| GeminiClient.ThreeFailures | Automated-resume-parsing-and-matcing-system-main/app.py:17-24 | two exceptions around an empty answer yield the reports for attempts 1 and 3 and three sleeps, in order |
| Pipeline.HandleResponse | Automated-resume-parsing-and-matcing-system-main/app.py:172-184 | a missing or empty answer is never decoded. An undecodable answer is reported with the decoder's message and shown back verbatim. A record without personal information ends in the `KeyError`. Only a record with it is rendered and named |
| Pipeline.HeadKinds | Automated-resume-parsing-and-matcing-system-main/app.py:72-84 | the head of the résumé has the four titles and the empty lines at fixed places, and its field lines start with a space |
| Pipeline.WorkSectionBody | Automated-resume-parsing-and-matcing-system-main/app.py:60-64 | every line of the work section starts with a space or a digit and is not blank |
| Pipeline.EducationSectionBody | Automated-resume-parsing-and-matcing-system-main/app.py:66-70 | every line of the education section starts with a space or a digit and is not blank |
| Pipeline.PdfLinesOfResume | Automated-resume-parsing-and-matcing-system-main/app.py:72-90 | when no field holds a newline, stripping the rendered résumé drops its empty first and last lines and the trailing spaces of the final line |
| Pipeline.SavedResumeLayout | Automated-resume-parsing-and-matcing-system-main/app.py:103-137 | for a rendered résumé, the personal list is the header and the name, phone and email lines, and the other list is everything after them. The four section titles are recognised at their fixed places and nowhere else |

## Left out

- The Streamlit page (lines 157-170, 186-192) is not modelled: the title, the inputs, the button, the raw-response and evaluation displays and the download button are user interface.
- The reading of the uploaded PDF, `input_pdf_text` (lines 27-33), is left out. It is PyPDF2 text extraction.
- The prompt format (line 166) is not modelled. It is one `str.format` call filling two placeholders of a constant template, and nothing in the core depends on its result.
- The Gemini client and its configuration (lines 11-13, 16, 19) are not modelled. What each `generate_content` call does is a parameter of `GetGeminiResponse`, and so is `time.sleep` (recorded as an event).
- GeminiClient.GetGeminiResponse: requires one scripted outcome per possible attempt (`retries <= |outcomes|`). The real model is an external service, so this is a modelling device, not a demand of the source.
- `json.loads` (line 176) is the `decode` parameter of `HandleResponse`. Only records shaped as the prompt asks are modelled.
  - A JSON value that is not an object is not modelled.
  - Neither is a field of the wrong type. For a single value the code does not reject it: an f-string prints any value with `str()`. A number as `Phone` prints its digits (line 75), a number as `Name` names the file after it (line 183), `null` prints `None`, a boolean `True` or `False`, and a list or object its representation.
  - A string where `Skills` expects a list is joined one character at a time (line 58).
  - The code raises only where it iterates or calls `.get`: a `Skills` value that is not iterable or holds a non-string item (line 58), a `Work Experience` or `Education` value that is not iterable or whose items are not objects (lines 60-70), and a `Personal Information` value that is not an object (lines 74-76, 183).
- FPDF drawing is left out (lines 92-101, 104-107, 122-132, 138-144, 147-155):
  - fonts and colours;
  - floating-point positions;
  - the logo;
  - the page size;
  - the file written.
  The model records, for each other line, whether it is drawn as a title or after an overflow check. It does not model whether the check adds a page.
- The latin-1 transcoding of each drawn line (`encode('latin-1', 'replace')`) is left out; the model keeps lines as Unicode text.
- Pipeline.SavedResumeLayout: requires that no field holds a newline, and that no saved line after the first contains `Personal Information:`. A field holding either would split a line or move lines between the two lists. The general partition lemmas in `PdfLayout` cover those inputs.
- ResumeText.WorkSectionRendering: requires that no field of a work entry holds a newline, so that each field stays on its own line. `ResumeText.WorkSectionAsLines` covers every record at the level of the joined text.
- ResumeText.EducationSectionRendering: requires the same of the education entries. `ResumeText.EducationSectionAsLines` covers every record.
- ResumeText.ResumeLayout: requires that no field holds a newline. `ResumeText.CreateResume` states the joined text for every record.
- Pipeline.PdfLinesOfResume: requires that no field holds a newline, as `ResumeText.ResumeLayout` does.
- ResumeText.CreateResume and ResumeText.PdfFilename: require the personal information to be present. The source indexes `details["Personal Information"]` without a default, so on a missing key it raises; `Pipeline.HandleResponse` models that outcome as `MissingPersonalInformation`.
