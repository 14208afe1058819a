# GPA calculator core in Dafny

This project models the computational core of the ISC OCR GPA calculator, a Next.js application that turns course lists and transcripts into GPAs. It covers:

- **The simple GPA route** (`/api/calculate-gpa`). A credit-weighted average on the caller's grading scale, gated by a validator reply that must contain "VALID".
- **The transfer GPA engine** (`/api/calculate-transfer-gpa`). It covers:
  - quarter and trimester credit conversion;
  - the core-subjects filter;
  - honors and AP bonuses, and the transfer rigor multiplier;
  - the cap at the scale maximum plus two;
  - the institutional, transfer and cumulative sums;
  - the three reported GPAs and the ordered warnings.
- **The transcript GPA route** (`/api/calculate-transcript-gpa`). The manual calculation over the five conversion tables, the rigor adjustment, and the sanitiser that clamps a conversion reply.
- **The batch route** (`/api/calculate-batch-gpa`). Line splitting on `\r?\n`, the header check against the nine required columns, one record per data line, and the removal of a code fence around the reply.
- **The calculator page**. Adding, removing and editing course rows by id, row validation with its error messages, and the CSV import, including a round trip from rendered CSV back to rows.
- **The transcript upload component**. The defaults filled into extracted courses, in-place edits by id, the semester-and-year cell, the displayed credit total, the rigor lookup and the request sent for calculation.
- **The reports page** (record filter and summary statistics), **the institution database** (search filter and country list), and `calculatePercentageChange` from `lib/utils.ts`.

## How the model is organised

- **One module per core file.** The modules are:
  - `SimpleGpa`, `TransferGpa`, `TranscriptGpa` and `BatchCsv` (the four routes);
  - `Calculator` and `TranscriptUpload` (the two stateful components);
  - `Reports` and `Institutions` (the two filter pages);
  - `Percentage` (the utility).
- **Shared helpers.** `Wrappers` holds `Option` and `Result` plus JavaScript's `||` defaults. `Numbers` holds `Math.round` and rounding to tenths or cents. `Text` holds `trim`, `split`, `join`, `includes`, `toLowerCase`, `parseInt` and integer rendering. `Seqs` holds `filter`, subsequences and de-duplication. `Courses` holds the course record the routes share.
- **JavaScript numbers are `real`.** `Math.round(x)` is `Floor(x + 1/2)`, so halves round up, negative ones included.
- **The source's loops are methods proved against functions.** This covers the loops in the three GPA routes, `validateCourses`, `processCsvData` and the batch route's row builder. Each is a `method` with a loop, proved equal to a recursive function. The properties are then proved about that function.
- **Component state updates are modelled on values.** A `setState` call becomes a function from the old list or record to the new one.

## Model

| member | source | states |
|---|---|---|
| Numbers.RoundHalfUp | lib/utils.ts:17 | `Math.round` gives the integer nearest to x, with halves rounded up (x - 1/2 < n <= x + 1/2) |
| Numbers.Round1 | app/api/calculate-transfer-gpa/route.ts:49-52 | rounding to tenths gives a multiple of 0.1 within 0.05 of x |
| Numbers.Round2 | app/api/calculate-gpa/route.ts:86 | rounding to cents gives a multiple of 0.01 within 0.005 of x |
| Numbers.Round2Monotone | app/api/calculate-gpa/route.ts:86 | rounding to cents preserves order |
| Numbers.Round2OfCents | app/api/calculate-gpa/route.ts:86 | a value already in cents is left unchanged |
| Numbers.Round2Between | app/api/calculate-gpa/route.ts:86 | a value between two bounds rounds to between the bounds' roundings |
| Text.Contains | app/api/calculate-gpa/route.ts:58 | `includes` holds exactly when the text occurs at some position |
| Text.NonBlankLinesFacts | app/api/calculate-gpa/route.ts:61 | `split("\n").filter(line => line.trim())` keeps, in order, exactly the lines that are not blank, and none holds a line break |
| Text.TruthyLineIff | app/api/calculate-gpa/route.ts:61 | a line's trimmed text is truthy exactly when the line is not blank |
| Text.TrimFacts | app/calculator/page.tsx:144 | `trim` gives a trimmed text, leaves trimmed text alone, and is empty exactly for blank text |
| Text.Trim | app/calculator/page.tsx:144 | `trim`: the text with leading and trailing ECMAScript white space and line terminators removed (its properties are TrimFacts) |
| Text.SplitJoin | app/calculator/page.tsx:194-199 | splitting pieces joined by a separator they lack gives the pieces back |
| Text.Split | app/calculator/page.tsx:194 | `split(c)`: the maximal pieces between occurrences of `c`, at least one (its round trip is SplitJoin) |
| Text.ParseIntOfNatToString | app/calculator/page.tsx:204 | `parseInt` reads a rendered whole number back as itself |
| Text.ParseInt | app/calculator/page.tsx:204 | `parseInt(s)`: leading white space skipped, an optional sign, a `0x` prefix read as hexadecimal, and the longest run of digits; `None` (NaN) when there is none |
| Text.ToLower | app/reports/page.tsx:93 | `toLowerCase` on ASCII text: each of A–Z becomes its lower-case letter and every other character is kept, one for one |
| Text.ToLowerIdempotent | app/reports/page.tsx:93 | lowered text has no capital A–Z left, and lowering it again changes nothing |
| SimpleGpa.DetailsOf | app/api/calculate-gpa/route.ts:78-82 | one detail per course, in course order |
| SimpleGpa.AccumulateCourses | app/api/calculate-gpa/route.ts:67-83 | the loop's totals and details are the sums and details of all courses |
| SimpleGpa.CalculateGpa | app/api/calculate-gpa/route.ts:58-116 | the route's answer equals the response function |
| SimpleGpa.Respond | app/api/calculate-gpa/route.ts:58-116 | the route's response: rejected with the validator reply's non-blank lines unless it contains "VALID"; otherwise the sums, Round2 of points over credits (0 with no credits), the details and the insight lines (its properties are GateIff and GpaWithinScale) |
| SimpleGpa.GateIff | app/api/calculate-gpa/route.ts:58-64 | the GPA is computed exactly when "VALID" occurs in the validator's reply; otherwise the errors are the reply's non-blank lines; insights are the non-blank lines of the insight reply |
| SimpleGpa.InvalidReplyPasses | app/api/calculate-gpa/route.ts:58 | a reply of "INVALID" lets the calculation through |
| SimpleGpa.NoCreditsGivesZero | app/api/calculate-gpa/route.ts:85 | with no credits the GPA is 0, not null |
| SimpleGpa.PointsWithin | app/api/calculate-gpa/route.ts:71-76 | with non-negative credits and scale values in [0, hi], the points lie between 0 and hi per credit |
| SimpleGpa.AverageWithin | app/api/calculate-gpa/route.ts:85 | such an average lies in [0, hi] |
| SimpleGpa.GpaWithinScale | app/api/calculate-gpa/route.ts:85-86 | the reported GPA lies between 0 and the scale maximum rounded to cents |
| SimpleGpa.UniformPoints | app/api/calculate-gpa/route.ts:71-76 | courses that all earn v points give v times the credits |
| SimpleGpa.UniformGrade | app/api/calculate-gpa/route.ts:85-86 | a transcript with a single grade value v has GPA Round2(v) |
| TransferGpa.ConvertCredits | app/api/calculate-transfer-gpa/route.ts:43-57 | quarter credits become 0.67x and trimester 0.75x, rounded to tenths; any other system takes the original credits; courses without a credit system keep their credits |
| TransferGpa.ConvertAll | app/api/calculate-transfer-gpa/route.ts:43-63 | one converted course per course, in order, with its converted credits |
| TransferGpa.MaxPoint | app/api/calculate-transfer-gpa/route.ts:145 | the largest value of the scale: an entry of the scale, and no entry exceeds it |
| TransferGpa.MaxKeyExists | app/api/calculate-transfer-gpa/route.ts:145 | a non-empty set of keys has a key of largest value |
| TransferGpa.MaxGradePoints | app/api/calculate-transfer-gpa/route.ts:145 | the loop over the scale computes its maximum |
| TransferGpa.ScoreCourse | app/api/calculate-transfer-gpa/route.ts:123-148 | the grade points after bonus, rigor multiplier and cap at max + 2, the quality points, and the rigor warning |
| TransferGpa.AdjustedGradePoints | app/api/calculate-transfer-gpa/route.ts:123-146 | a course's grade points (`|| 0`) plus its honors or AP bonus, times its rigor multiplier when it has one, capped at the scale maximum plus two (bounded by AdjustedWithinCap) |
| TransferGpa.DetailsOf | app/api/calculate-transfer-gpa/route.ts:170-174 | one detail per surviving course, in order |
| TransferGpa.BucketGpa | app/api/calculate-transfer-gpa/route.ts:178-222 | a bucket's GPA is null exactly when it has no credits or its average is 0; otherwise the average rounded to cents |
| TransferGpa.TallyCourse | app/api/calculate-transfer-gpa/route.ts:150-168 | a course's points and credits go to its bucket and, by policy, to the total; a transfer course off semesters gets a conversion warning |
| TransferGpa.PrefixStep | app/api/calculate-transfer-gpa/route.ts:122-175 | one more course extends the sums, details and warnings by that course's share |
| TransferGpa.SumCourses | app/api/calculate-transfer-gpa/route.ts:122-175 | the main loop computes the accumulated sums, the details and the course warnings |
| TransferGpa.CalculateTransferGpa | app/api/calculate-transfer-gpa/route.ts:43-234 | the route's result equals the calculation function |
| TransferGpa.Calculate | app/api/calculate-transfer-gpa/route.ts:43-234 | the route's result: credits converted, electives filtered, the three sums accumulated, the three GPAs by BucketGpa, the details, and the course warnings followed by the policy warnings (its properties are TotalsPartition, PolicyWarningsIff and GpaWithinScale) |
| TransferGpa.FilterDropsOnlyElectives | app/api/calculate-transfer-gpa/route.ts:66-71 | the filter keeps the order and removes exactly the electives under core-only, and nothing otherwise |
| TransferGpa.FilterCourses | app/api/calculate-transfer-gpa/route.ts:66-71 | under core-only, the courses whose type is "elective" are removed, in order (characterised by FilterDropsOnlyElectives) |
| TransferGpa.SurvivorsFromInput | app/api/calculate-transfer-gpa/route.ts:43-71 | every surviving course came from the input and is not a dropped elective |
| TransferGpa.DetailsAreSurvivors | app/api/calculate-transfer-gpa/route.ts:122-175 | the course details are the surviving courses, one each, in input order |
| TransferGpa.TotalsPartition | app/api/calculate-transfer-gpa/route.ts:150-168 | cumulative credits and points are the institutional ones plus, if included, the transfer ones |
| TransferGpa.CourseIgnoresSeparateFlag | app/api/calculate-transfer-gpa/route.ts:28 | one course is scored alike whatever `separateTransferGPA` says |
| TransferGpa.AccumulateIgnoresSeparateFlag | app/api/calculate-transfer-gpa/route.ts:122-175 | the sums, details and warnings do not depend on `separateTransferGPA` |
| TransferGpa.SeparateFlagHasNoEffect | app/api/calculate-transfer-gpa/route.ts:28 | the whole result is independent of `separateTransferGPA` |
| TransferGpa.ExcludedTransferLeavesInstitutional | app/api/calculate-transfer-gpa/route.ts:165-168 | with transfer excluded, the cumulative GPA and credits equal the institutional ones |
| TransferGpa.CourseWarningsKinds | app/api/calculate-transfer-gpa/route.ts:137-158 | the loop pushes only rigor and conversion warnings |
| TransferGpa.PolicyWarningsAppended | app/api/calculate-transfer-gpa/route.ts:183-189 | each policy warning is present exactly when its condition holds, after every course warning |
| TransferGpa.PolicyWarnings | app/api/calculate-transfer-gpa/route.ts:183-189 | the exclusion warning when transfer credits exist but are excluded, then the ratio warning when transfer credits exceed twice the institutional ones (both directions in PolicyWarningsIff) |
| TransferGpa.PolicyWarningsIff | app/api/calculate-transfer-gpa/route.ts:183-189 | in the result, the exclusion and ratio warnings appear exactly when their conditions hold, after all course warnings |
| TransferGpa.UnlabelledTransferIsWarned | app/api/calculate-transfer-gpa/route.ts:154-158 | a transfer course with no credit system keeps its credits yet gets a conversion warning |
| TransferGpa.RatioWarningWithoutInstitutional | app/api/calculate-transfer-gpa/route.ts:187-189 | any transfer credit with no institutional credit triggers the ratio warning |
| TransferGpa.InstitutionalIgnoresTransferFields | app/api/calculate-transfer-gpa/route.ts:46-142 | an institutional course's transfer fields change neither its credits nor its points, and it warns nothing |
| TransferGpa.NeutralRigor | app/api/calculate-transfer-gpa/route.ts:133-141 | a rating of 3 with adjustment 1 leaves the points alone and warns nothing |
| TransferGpa.ConvertCreditsNonNegative | app/api/calculate-transfer-gpa/route.ts:43-57 | non-negative credits convert to non-negative credits |
| TransferGpa.AdjustedWithinCap | app/api/calculate-transfer-gpa/route.ts:123-146 | with non-negative inputs, the adjusted grade points lie in [0, max + 2] |
| TransferGpa.AddCourseWithinCap | app/api/calculate-transfer-gpa/route.ts:150-168 | adding a course within the cap keeps every bucket within the cap |
| TransferGpa.AddScoredWithinCap | app/api/calculate-transfer-gpa/route.ts:148-168 | adding a scored course keeps every bucket within the cap |
| TransferGpa.QualityWithinCap | app/api/calculate-transfer-gpa/route.ts:148 | a course's quality points lie between 0 and the cap per credit |
| TransferGpa.AccumulateWithinCap | app/api/calculate-transfer-gpa/route.ts:122-175 | after the loop, every bucket holds at most the cap per credit |
| TransferGpa.BucketGpaWithin | app/api/calculate-transfer-gpa/route.ts:178-180 | a bucket's reported GPA lies in [0, Round2(cap)] |
| TransferGpa.TotalsGpaWithin | app/api/calculate-transfer-gpa/route.ts:220-222 | all three reported GPAs lie in [0, Round2(cap)] |
| TransferGpa.GpaWithinScale | app/api/calculate-transfer-gpa/route.ts:145-222 | with no negative input, every reported GPA lies between 0 and Round2(scale maximum + 2), the cap rounded to cents |
| TransferGpa.CreditConversionExamples | app/api/calculate-transfer-gpa/route.ts:48-53 | 4 quarter credits give 2.7; 4 trimester credits give 3.0 |
| TransferGpa.SingleGradeMax | app/api/calculate-transfer-gpa/route.ts:145 | the maximum of a one-entry scale is that entry |
| TransferGpa.SingleCourse | app/api/calculate-transfer-gpa/route.ts:122-175 | the loop over one course is one step |
| TransferGpa.NothingConvertedOrDropped | app/api/calculate-transfer-gpa/route.ts:43-71 | courses needing neither conversion nor filtering pass through unchanged |
| TransferGpa.InstitutionalExample | app/api/calculate-transfer-gpa/route.ts:178-222 | one 3-credit "A" at 4.0 gives institutional and cumulative GPAs of 4.00, no transfer GPA and no warnings |
| TransferGpa.InstitutionalExampleTotals | app/api/calculate-transfer-gpa/route.ts:122-175 | the sums of that example are 12 points over 3 credits |
| TransferGpa.TransferExample | app/api/calculate-transfer-gpa/route.ts:43-222 | 4 quarter credits of "B" at rating 3 give 2.7 credits, 8.1 quality points, and transfer and cumulative GPAs of 3.00 |
| TransferGpa.UnknownGradeLowersAverage | app/api/calculate-transfer-gpa/route.ts:123 | a grade missing from the scale scores 0 but its credits still count |
| TransferGpa.UnknownGradeTotals | app/api/calculate-transfer-gpa/route.ts:122-175 | the sums of that example are 12 points over 6 credits |
| TranscriptGpa.ConversionTable | app/api/calculate-transcript-gpa/route.ts:160-227 | an unknown scale name falls back to the "4.0 GPA" table |
| TranscriptGpa.ScaleOfValid | app/api/calculate-transcript-gpa/route.ts:160-227 | every table's entries lie in [0, 10] on the 10-point scale and in [0, 4] elsewhere |
| TranscriptGpa.TablesWithin | app/api/calculate-transcript-gpa/route.ts:160-225 | the per-table bounds |
| TranscriptGpa.ConvertWithin | app/api/calculate-transcript-gpa/route.ts:234-239 | on a valid scale, a converted grade lies in [0, 4], and a grade missing from the table converts to 0 |
| TranscriptGpa.ConvertGrade | app/api/calculate-transcript-gpa/route.ts:227-239 | a converted grade lies in [0, 4], and a grade missing from the table converts to 0 |
| TranscriptGpa.ConversionsOf | app/api/calculate-transcript-gpa/route.ts:245-250 | one conversion per course, in order |
| TranscriptGpa.RigorMultiplier | app/api/calculate-transcript-gpa/route.ts:254 | the multiplier is at most 1.2 and is rigor/4 up to a rigor of 4.8 |
| TranscriptGpa.RigorAdjusted | app/api/calculate-transcript-gpa/route.ts:255 | the rigor-adjusted GPA is at most 4.0 |
| TranscriptGpa.PrefixStep | app/api/calculate-transcript-gpa/route.ts:233-251 | one more course extends the points, credits and conversions by that course |
| TranscriptGpa.ScoreCourse | app/api/calculate-transcript-gpa/route.ts:234-241 | the loop body's grade points and quality points are the conversion's |
| TranscriptGpa.TallyCourses | app/api/calculate-transcript-gpa/route.ts:229-251 | the loop computes the summed points, credits and conversions |
| TranscriptGpa.PerformManualCalculation | app/api/calculate-transcript-gpa/route.ts:158-272 | the manual calculation equals the manual-result function |
| TranscriptGpa.Manual | app/api/calculate-transcript-gpa/route.ts:158-272 | the manual result on the institution's table: base GPA, rigor-adjusted GPA, per-course conversions, confidence 88 and the course and credit totals (bounded by ManualGpaWithin) |
| TranscriptGpa.DefaultConversions | app/api/calculate-transcript-gpa/route.ts:289-294 | a B (3.0) per course, with 3 points per credit |
| TranscriptGpa.Sanitize | app/api/calculate-transcript-gpa/route.ts:274-299 | each GPA is kept when it lies in [0, 4], clamped to 0 or 4 outside it, and 0 when missing; the confidence lies in [0, 100]; the conversion list matches the course count; the texts are never empty; a matching list is kept with the clamped confidence (80 by default), and a mismatched list is replaced by defaults with confidence min(clamped confidence, 70) |
| TranscriptGpa.SanitizeKeepsValid | app/api/calculate-transcript-gpa/route.ts:274-299 | a reply with both GPAs in [0, 4], a confidence in (0, 100], one conversion per course and non-empty texts passes through the sanitiser unchanged |
| TranscriptGpa.ValidateAndSanitizeResults | app/api/calculate-transcript-gpa/route.ts:274-299 | the in-place sanitiser computes the sanitised record |
| TranscriptGpa.QualityWithin | app/api/calculate-transcript-gpa/route.ts:241 | one course contributes 0 to 4 points per credit |
| TranscriptGpa.PointsWithin | app/api/calculate-transcript-gpa/route.ts:233-251 | the total points lie between 0 and 4 per credit |
| TranscriptGpa.BaseGpaWithin | app/api/calculate-transcript-gpa/route.ts:253 | the base GPA lies in [0, 4] |
| TranscriptGpa.ManualGpaWithin | app/api/calculate-transcript-gpa/route.ts:253-259 | both GPAs of the manual calculation lie in [0, 4] |
| TranscriptGpa.ManualWithGpaWithin | app/api/calculate-transcript-gpa/route.ts:253-259 | the same bound for any scale within its range |
| TranscriptGpa.RigorAdjustedOrder | app/api/calculate-transcript-gpa/route.ts:254-255 | rigor below 4 never raises the GPA; rigor above 4 never lowers it; rigor 4 leaves it unchanged |
| TranscriptGpa.SanitizeKeepsManual | app/api/calculate-transcript-gpa/route.ts:116-120 | a manual result put through the sanitiser keeps its GPAs, conversions, texts and confidence of 88 |
| TranscriptGpa.UnparsedReplyGivesManual | app/api/calculate-transcript-gpa/route.ts:110-139 | when the reply is not JSON, the response carries the manual numbers |
| TranscriptGpa.ConvertTranscript | app/api/calculate-transcript-gpa/route.ts:110-139 | the route's response: the parsed reply, or the manual result when the reply is not JSON, put through the sanitiser, with the institution's CGPA and rigor and the course totals (see UnparsedReplyGivesManual and SanitizeKeepsManual) |
| TranscriptGpa.SanitizeIdempotent | app/api/calculate-transcript-gpa/route.ts:274-299 | sanitising twice equals sanitising once, unless the confidence came out as 0 |
| TranscriptGpa.ZeroConfidenceBecomesDefault | app/api/calculate-transcript-gpa/route.ts:281 | a negative confidence clamps to 0, which a second pass treats as missing and turns into 80 |
| TranscriptGpa.ConvertGradeExamples | app/api/calculate-transcript-gpa/route.ts:160-239 | conversions of AA, A, DD and C on the 10-point scale, of an unknown scale, Class Honours and an unknown percentage band |
| TranscriptGpa.TenPointOrderInverted | app/api/calculate-transcript-gpa/route.ts:237-239 | on the 10-point scale "DD" (4) converts to 4.0, above "AB" (9), which converts to 3.6 |
| TranscriptGpa.ConvertIntendedMonotone | app/api/calculate-transcript-gpa/route.ts:236-239 | the corrected conversion preserves the order of table values and stays within [0, 4] |
| TranscriptGpa.ConvertIntended | app/api/calculate-transcript-gpa/route.ts:236-239 | the corrected conversion: every 10-point value scaled by 4/10, other scales unchanged (proved order-preserving by ConvertIntendedMonotone) |
| TranscriptGpa.ConvertIntendedAgrees | app/api/calculate-transcript-gpa/route.ts:237-239 | the corrected and written conversions differ only on 10-point values of at most 4 |
| BatchCsv.SplitLines | app/api/calculate-batch-gpa/route.ts:24 | `split(/\r?\n/)` always yields at least one piece |
| BatchCsv.SplitLinesOfLf | app/api/calculate-batch-gpa/route.ts:24 | on text without carriage returns it is `split("\n")` |
| BatchCsv.SplitLinesAvoidBreaks | app/api/calculate-batch-gpa/route.ts:24 | no piece holds a line feed |
| BatchCsv.SplitLinesOfCrLf | app/api/calculate-batch-gpa/route.ts:24 | lines joined with CRLF split back into themselves |
| BatchCsv.SplitLinesAfterPiece | app/api/calculate-batch-gpa/route.ts:24 | a break-free line followed by CRLF is split off as one piece |
| BatchCsv.LinesFacts | app/api/calculate-batch-gpa/route.ts:24 | the kept lines are non-empty, hold no line feed, and keep their order |
| BatchCsv.Fields | app/api/calculate-batch-gpa/route.ts:25-48 | one trimmed field per comma-separated piece |
| BatchCsv.MissingFields | app/api/calculate-batch-gpa/route.ts:27-39 | exactly the required columns the header lacks, in the required order |
| BatchCsv.RowOfLookup | app/api/calculate-batch-gpa/route.ts:49-52 | each column name maps to the value under its last column, or "" past the end of a short line |
| BatchCsv.RowOfKeys | app/api/calculate-batch-gpa/route.ts:49-52 | a name that is not a column is not a key |
| BatchCsv.BuildRow | app/api/calculate-batch-gpa/route.ts:48-53 | the `forEach` loop builds the record function's map |
| BatchCsv.Records | app/api/calculate-batch-gpa/route.ts:47-54 | one record per line after the header |
| BatchCsv.RecordLookup | app/api/calculate-batch-gpa/route.ts:47-54 | record i maps each column name to line i + 1's trimmed value under that column |
| BatchCsv.ParseBatchOutcome | app/api/calculate-batch-gpa/route.ts:10-146 | an upload with no line fails; otherwise it is accepted exactly when every required column is present, and then yields one record per later line; a refusal names exactly the missing columns |
| BatchCsv.ParseBatch | app/api/calculate-batch-gpa/route.ts:10-54 | the upload's records: no file gives the 400, no line the 500, missing columns the 400 naming them, otherwise one column map per data line (characterised by ParseBatchOutcome) |
| BatchCsv.CleanResponse | app/api/calculate-batch-gpa/route.ts:125-129 | the cleaned reply is trimmed |
| BatchCsv.CleanPlainReply | app/api/calculate-batch-gpa/route.ts:125-129 | a trimmed reply with no fence is left as it is |
| BatchCsv.CleanFencedReply | app/api/calculate-batch-gpa/route.ts:125-129 | a body wrapped in a "```json" fence (tag in any case) or a bare fence comes out unwrapped |
| BatchCsv.OpenFenceStripped | app/api/calculate-batch-gpa/route.ts:126-127 | the two opening passes remove a leading fence line |
| BatchCsv.CloseFenceStripped | app/api/calculate-batch-gpa/route.ts:128 | the closing pass removes a fence on the last line |
| Calculator.AddCourse | app/calculator/page.tsx:121-130 | the list gains one row at the end: blank name and grade, 3 credits, "Fall 2024", the given id; the earlier rows are unchanged |
| Calculator.RemoveCourse | app/calculator/page.tsx:132-134 | exactly the rows without the id remain, in order, each as many times as it occurred |
| Calculator.UpdateCourse | app/calculator/page.tsx:136-138 | rows with the id get the edit; every other row is unchanged |
| Calculator.RemoveAdded | app/calculator/page.tsx:121-134 | removing a freshly added row gives the list back |
| Calculator.RemoveAbsent | app/calculator/page.tsx:132-134 | removing an unknown id changes nothing |
| Calculator.UpdateAbsent | app/calculator/page.tsx:136-138 | editing an unknown id changes nothing |
| Calculator.UpdateIdempotent | app/calculator/page.tsx:136-138 | repeating an edit that keeps the id changes nothing more |
| Calculator.RemoveAfterUpdate | app/calculator/page.tsx:132-138 | an edit to a row is invisible once that row is removed |
| Calculator.CourseErrorsIff | app/calculator/page.tsx:144-152 | a row has no errors exactly when it has a non-blank name, positive credits and a grade |
| Calculator.NoErrorsIffAllValid | app/calculator/page.tsx:140-157 | the error list is empty exactly when every row is valid |
| Calculator.ErrorsBound | app/calculator/page.tsx:143-153 | at most three errors per row |
| Calculator.ErrorsStep | app/calculator/page.tsx:143-153 | one more row appends that row's errors |
| Calculator.AppendErrors | app/calculator/page.tsx:144-152 | the three checks append the row's errors in order |
| Calculator.ValidateCourses | app/calculator/page.tsx:140-157 | the loop computes the error list, and the result is true exactly when every row is valid |
| Calculator.ValidationErrors | app/calculator/page.tsx:140-157 | the errors of every row in row order, each row's name, credits and grade checks in that order (characterised by NoErrorsIffAllValid and ErrorsBound) |
| Calculator.CsvCredits | app/calculator/page.tsx:204 | an imported credit count is never 0 |
| Calculator.CsvCreditsDefaults | app/calculator/page.tsx:204 | 3 exactly for an unreadable or zero count; any other count is taken as it is |
| Calculator.ImportRowFacts | app/calculator/page.tsx:199-208 | a line gives at most one row, with id the line's clock reading + line number and the import's field shape |
| Calculator.RowOfFacts | app/calculator/page.tsx:200-208 | fields give at most one row, of that id and shape |
| Calculator.CsvCourseFacts | app/calculator/page.tsx:201-207 | a row built from four or more fields has the id of the line's clock reading and number, and the import's shape |
| Calculator.ImportLines | app/calculator/page.tsx:198-209 | at most one row per data line |
| Calculator.ProcessCsvData | app/calculator/page.tsx:193-212 | the loop, reading the clock for each imported row, builds the imported list |
| Calculator.ImportCsv | app/calculator/page.tsx:193-212 | the trimmed text split at line feeds, the header line skipped, one row per later line with four or more fields (its round trip is ImportRendered) |
| Calculator.ImportedIds | app/calculator/page.tsx:202 | every imported id is the clock reading of an earlier data line followed by that line's number |
| Calculator.ImportedIdsDistinct | app/calculator/page.tsx:202 | imported rows have pairwise distinct ids when the clock readings all have the same number of digits |
| Calculator.UnequalWidthsCollide | app/calculator/page.tsx:202 | readings of different widths can collide: line 3 read at "12" and line 23 read at "1" both get id "123" |
| Calculator.DistinctAfterAppend | app/calculator/page.tsx:201 | appending the row of a new line keeps the ids distinct, for readings of one width |
| Calculator.NewIdIsFresh | app/calculator/page.tsx:202 | a new line's id differs from every earlier line's id, for readings of one width |
| Calculator.ImportedRowsWellFormed | app/calculator/page.tsx:203-206 | every imported row has non-zero credits, a trimmed name and grade, and a semester |
| Calculator.Renumbered | app/calculator/page.tsx:202 | renumbering keeps the number of rows |
| Calculator.DigitsAreCsvField | app/calculator/page.tsx:199-204 | a rendered whole number is a field the import keeps intact |
| Calculator.CsvCreditsOfDigits | app/calculator/page.tsx:204 | a positive whole number of credits is read back as itself |
| Calculator.ImportRenderedRow | app/calculator/page.tsx:199-207 | a rendered row is read back as the row under its new id |
| Calculator.RenderedRowSplits | app/calculator/page.tsx:199 | a rendered row splits back into its four fields |
| Calculator.RowFieldsRead | app/calculator/page.tsx:201-207 | a clean row's fields are read back as the row |
| Calculator.SplitFourFields | app/calculator/page.tsx:199 | four comma-free fields joined with commas split back into themselves |
| Calculator.ImportRowOfFields | app/calculator/page.tsx:199-208 | a line with four or more fields yields its row |
| Calculator.RenderedRowHasNoBreak | app/calculator/page.tsx:194 | a rendered row holds no line break |
| Calculator.ImportRenderedLines | app/calculator/page.tsx:198-209 | importing rendered lines gives the renumbered rows |
| Calculator.ImportLinesStep | app/calculator/page.tsx:198-209 | one more line appends that line's row |
| Calculator.RenumberedStep | app/calculator/page.tsx:202 | renumbering one more row appends that row under its line's clock reading + its line number |
| Calculator.RenderedCsvTrimmed | app/calculator/page.tsx:194 | `trim` leaves rendered CSV unchanged |
| Calculator.RenderedCsvSplits | app/calculator/page.tsx:194 | rendered CSV splits into the header and one line per row |
| Calculator.ImportRendered | app/calculator/page.tsx:193-212 | importing the CSV rendering of clean rows gives the same rows back, renumbered |
| TranscriptUpload.Normalize | components/transcript-upload.tsx:205-213 | a normalised course has non-zero credits, a course code, a semester and a year, and keeps a given id |
| TranscriptUpload.NormalizeCourses | components/transcript-upload.tsx:205-213 | one normalised course per extracted course, in order, by position |
| TranscriptUpload.NormalizeDefaults | components/transcript-upload.tsx:206-212 | each default ("course-i", code or courseId or "COURSEi+1", 3 credits, "Fall", "2023") applies exactly when its field is falsy |
| TranscriptUpload.DefaultIdsDistinct | components/transcript-upload.tsx:206 | without ids in the reply, the default ids are pairwise distinct |
| TranscriptUpload.Processed | components/transcript-upload.tsx:215-218 | the transcript keeps every field except the courses, which are the normalised ones |
| TranscriptUpload.Apply | components/transcript-upload.tsx:236 | an edit never changes the row id |
| TranscriptUpload.UpdateCourses | components/transcript-upload.tsx:235-237 | rows with the id get the edit; every other row is unchanged |
| TranscriptUpload.UpdateCourse | components/transcript-upload.tsx:232-243 | nothing happens before a transcript is loaded; otherwise only the courses change |
| TranscriptUpload.UpdateIdempotent | components/transcript-upload.tsx:232-243 | applying an edit twice equals applying it once |
| TranscriptUpload.SemesterYearCommute | components/transcript-upload.tsx:542-543 | a semester edit and a year edit commute |
| TranscriptUpload.UpdateUnknownId | components/transcript-upload.tsx:235-237 | an unknown id changes nothing |
| TranscriptUpload.CreditsInput | components/transcript-upload.tsx:516 | the credits typed in are always a whole number |
| TranscriptUpload.CreditsInputOfNumber | components/transcript-upload.tsx:516 | typing a whole number enters that number |
| TranscriptUpload.AsWrittenKeepsSemester | components/transcript-upload.tsx:540-544 | as written, the cell's handler never changes any semester |
| TranscriptUpload.AsWrittenLosesSemester | components/transcript-upload.tsx:540-544 | retyping "semester year" stores only the new year |
| TranscriptUpload.AsWrittenLosesSemesterExample | components/transcript-upload.tsx:540-544 | "Fall 2023" retyped as "Spring 2024" ends up as "Fall 2024" |
| TranscriptUpload.EditSemesterYearSets | components/transcript-upload.tsx:540-544 | with the updates chained, retyping sets exactly the semester and year of the rows with the id |
| TranscriptUpload.EditSemesterYearAsWritten | components/transcript-upload.tsx:540-544 | the handler as written: both updates start from the same transcript, and only the year update is kept (AsWrittenLosesSemester) |
| TranscriptUpload.EditSemesterYear | components/transcript-upload.tsx:540-544 | the corrected handler: the year update applied to the result of the semester update (EditSemesterYearSets) |
| TranscriptUpload.EditShownTextUnchanged | components/transcript-upload.tsx:539-544 | retyping the text the cell shows changes nothing |
| TranscriptUpload.SplitJoinTwo | components/transcript-upload.tsx:541 | two space-free words joined by a space split back into those two |
| TranscriptUpload.UpdateCreditsTotal | components/transcript-upload.tsx:516-580 | setting one course's credits moves the displayed total by the difference |
| TranscriptUpload.ToCalculatorCourse | components/transcript-upload.tsx:252-260 | the course sent keeps id, name, credits and grade; it is not a transfer course; its type is "core" |
| TranscriptUpload.SentSemesterSplits | components/transcript-upload.tsx:257-541 | the semester sent splits back into the course's semester and year |
| TranscriptUpload.ToCalculatorCourses | components/transcript-upload.tsx:252-260 | one course sent per extracted course, in order |
| TranscriptUpload.SentCreditsMatchShown | components/transcript-upload.tsx:252-580 | the credits sent add up to the displayed total |
| TranscriptUpload.Find | components/transcript-upload.tsx:263 | `find` is absent exactly when no institution has the id; otherwise it returns an institution of the list with that id |
| TranscriptUpload.RigorForFirstMatch | components/transcript-upload.tsx:263-275 | the rigor is the first match's rating, or 4.0 when that rating is 0 |
| TranscriptUpload.RigorFor | components/transcript-upload.tsx:263-275 | the selected institution's rigor, or 4.0 when none matches or its rigor is 0 (RigorForFirstMatch) |
| TranscriptUpload.CalculationRequest | components/transcript-upload.tsx:252-278 | one course per extracted course; the rigor is the selected institution's, or 4.0 when none matches |
| TranscriptUpload.NeedsReview | components/transcript-upload.tsx:649 | the review notice shows when the extraction's confidence is below 90 |
| Reports.FilterRecords | app/reports/page.tsx:92-97 | the shown records are exactly the matching ones, in order, each as many times as it occurs |
| Reports.Matches | app/reports/page.tsx:93-96 | the record's name contains the search term, both lowered, and the scale and semester equal the selections or the selection is "all" |
| Reports.ShowAllKeepsEverything | app/reports/page.tsx:92-97 | an empty search with both selections on "all" shows every record |
| Reports.MatchingRecordShown | app/reports/page.tsx:93-96 | a record whose name contains the search term in any ASCII case, with the selected scale and semester, is shown |
| Reports.CountsWithinTotal | app/reports/page.tsx:100-104 | completed plus pending never exceed the total |
| Reports.StatsOf | app/reports/page.tsx:99-105 | the record count, the average GPA rounded to cents (`None` for no records), and the completed and pending counts (see CountsWithinTotal and AverageWithin) |
| Reports.AverageWithin | app/reports/page.tsx:101-102 | with GPAs between two cent values, the average is defined and lies between them |
| Reports.SumGpaWithin | app/reports/page.tsx:102 | the GPA sum lies between n times the bounds |
| Institutions.FilterInstitutions | components/institution-database.tsx:117-123 | the shown institutions are exactly those matching name or country, and the country selection, in database order, each as many times as it occurs |
| Institutions.Matches | components/institution-database.tsx:118-121 | the name or the country contains the search term, all lowered, and the country equals the selection or the selection is "all" |
| Institutions.ShowAllKeepsEverything | components/institution-database.tsx:117-123 | an empty search with "all" shows the whole database |
| Institutions.SelectedCountryOnly | components/institution-database.tsx:121 | selecting a country shows only that country's institutions |
| Institutions.Countries | components/institution-database.tsx:125 | the country list is never longer than the database |
| Institutions.CountriesFacts | components/institution-database.tsx:125 | every database country is listed exactly once, in order of first appearance |
| Institutions.DedupNoLonger | components/institution-database.tsx:125 | de-duplication never lengthens a list |
| Percentage.PercentageChange | lib/utils.ts:14-19 | "+0%" when the previous value is 0; otherwise a text ending in "%" whose number, as `parseInt` reads it, is within half a percent of the exact change, signed "+" exactly when the change is at least -0.5% and "-" otherwise |
| Percentage.FormatChangeFacts | lib/utils.ts:18 | the text ends with "%", starts with "+" exactly for non-negative changes and with "-" otherwise, and `parseInt` reads the rounded change back |
| Percentage.ParseSigned | lib/utils.ts:18 | a sign, digits and "%" parse back to the signed number |
| Percentage.NoChangeIsPlusZero | lib/utils.ts:15-18 | no previous value, or an unchanged value, gives "+0%" |
| Percentage.ChangeWithinHalfPercent | lib/utils.ts:16-18 | the number shown is within half a percent of the exact change, and is signed "+" exactly when the change is at least -0.5% |

## Left out

- The language-model calls (validation, insights, conversion, batch evaluation) and the OCR extraction. Their replies are parameters: a reply string, a parsed `Reply`, or the raw course list. The transfer route's echo of the validator reply (`validationResult`) is not part of `TransferResult`, and the simple route's constant `validationResult: "All data validated successfully"` is not part of `SimpleGpa.Computed`.
- JSON parsing of request bodies, batch options and replies. A reply that fails to parse is `None`; parsed replies are typed records.
- HTTP status codes, `NextResponse` and `console` logging. Errors are datatype constructors with the route's messages.
- React rendering, effects, timers, the progress bar and the `editingCourse` flag. State updates are modelled as functions from old state to new state. React's batching of two `setState` calls is modelled as "the later update wins" (see Findings).
- The static institution and student lists of the reports page and the institution database. They are parameters of `Reports` and `Institutions`. The transcript component's ten institutions are a constant, `TranscriptUpload.GlobalInstitutions`, with only the id and rigor fields the component reads.
- `Date.now()` ids. The clock is a parameter `clock`, giving the reading taken for each imported line.
- Calculator.ImportedIdsDistinct requires all readings to have the same number of digits. `Date.now()` has 13 digits for every instant from 2001 to 2286. Readings of different widths can give two rows one id, as `UnequalWidthsCollide` shows.
- Text.ToLower folds only A–Z. JavaScript's `toLowerCase` lowers every Unicode letter ("É" becomes "é") and can change the length (U+0130 becomes two code units). The case-insensitive searches of `Reports` and `Institutions` are therefore modelled for ASCII case only. The batch route's `/i` fence regex is ASCII case-insensitive, so that use is exact.
- IEEE-754 floating point. Numbers are exact reals, so `0.67 * 4` is exactly 2.68 and results are not affected by binary rounding.
- `toFixed(2)` in warning and note texts. Warnings and notes are structured values carrying the number.
- The transcript route's missing API key branch and its error fallback that re-reads the request body. These branches return the manual result unsanitised, with `aiProcessed: false` and a processing note; `SanitizeKeepsManual` shows that sanitising it would change no number.
- TranscriptUpload.Normalize: a course without a name, or without a grade, gets "" where the page would hold `undefined`.
- TranscriptUpload.NeedsReview only states the confidence threshold below which the review notice appears. It has no property of its own.
- TransferGpa.MaxGradePoints requires a non-empty grading scale. An empty scale gives `-Infinity` in JavaScript, and every caller passes one of the page's non-empty scales.
- Reports.StatsOf gives `None` for the average of an empty list, where the page shows `NaN`.
- `cn` and `getLocalStorageCount` in `lib/utils.ts` (class-name merging and browser storage) are outside the computational core.

## Findings

| source | as written | input that shows it | evidently intended | confidence | as-written member | corrected member |
|---|---|---|---|---|---|---|
| components/transcript-upload.tsx:540-544 | the cell's handler calls `updateCourse` for the semester and then for the year, both from the same `transcriptData` snapshot; the second update replaces the first | a course shown as "Fall 2023" retyped as "Spring 2024" ends up as "Fall 2024" | both fields updated, giving "Spring 2024" | not executed | TranscriptUpload.AsWrittenLosesSemester | TranscriptUpload.EditSemesterYearSets |
| app/api/calculate-transcript-gpa/route.ts:237-239 | on the 10-point scale only values above 4 are rescaled by 4/10 | "DD" (4 of 10) converts to 4.0 while "AB" (9 of 10) converts to 3.6 | every 10-point value scaled by 4/10, so better grades never convert lower | not executed | TranscriptGpa.TenPointOrderInverted | TranscriptGpa.ConvertIntendedMonotone |

The manual calculation in `TranscriptGpa` models the conversion as written. `ConvertIntended` is the corrected conversion. `ConvertIntendedAgrees` shows that the two differ only on 10-point values of at most 4. The transcript component's model keeps the handler as written (`EditSemesterYearAsWritten`), next to the corrected handler (`EditSemesterYear`).
