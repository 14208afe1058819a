/** The calculator page's course list: adding, removing and editing rows,
    checking them before a calculation, and importing them from CSV text.
    The page keeps the list in component state; here each operation takes the
    current list and returns the next one. */
module Calculator {
  import opened Wrappers
  import opened Text
  import opened Courses
  import Seqs

  // ---------------------------------------------------------------------------
  // Editing the list

  const DefaultSemester := "Fall 2024"

  /** The blank row `addCourse` appends; its id (a timestamp in the page) is a parameter. */
  function NewCourse(id: string): Course {
    PlainCourse(id, "", 3.0, "", DefaultSemester)
  }

  /** `addCourse`: the list with one blank row appended. */
  function AddCourse(courses: seq<Course>, id: string): (r: seq<Course>)
    ensures |r| == |courses| + 1
    ensures r[..|courses|] == courses
    ensures r[|courses|].id == id && r[|courses|].credits == 3.0 && r[|courses|].semester == DefaultSemester
    ensures r[|courses|].name == "" && r[|courses|].grade == ""
  {
    courses + [NewCourse(id)]
  }

  /** `course.id !== id`. */
  function NotId(id: string): Course -> bool {
    (c: Course) => c.id != id
  }

  /** `removeCourse`: every row with the id is dropped, the others keep their order. */
  function RemoveCourse(courses: seq<Course>, id: string): (r: seq<Course>)
    ensures forall c :: c in r <==> c in courses && c.id != id
    ensures forall c :: multiset(r)[c] == if c.id != id then multiset(courses)[c] else 0
    ensures Seqs.IsSubsequence(r, courses)
  {
    Seqs.FilterIsSubsequence(courses, NotId(id));
    Seqs.FilterMultiset(courses, NotId(id));
    Seqs.Filter(courses, NotId(id))
  }

  /** One field of a row set to a new value (`{ ...course, [field]: value }`). */
  datatype Edit =
    | SetId(newId: string)
    | SetName(name: string)
    | SetCredits(credits: real)
    | SetGrade(grade: string)
    | SetSemester(semester: string)
    | SetTransfer(isTransfer: bool)
    | SetOriginalCredits(originalCredits: real)
    | SetCreditSystem(creditSystem: string)
    | SetCourseType(courseType: string)
    | SetInstitutionName(institutionName: string)
    | SetRigorRating(rigorRating: real)

  function Apply(c: Course, e: Edit): Course {
    match e
    case SetId(v) => c.(id := v)
    case SetName(v) => c.(name := v)
    case SetCredits(v) => c.(credits := v)
    case SetGrade(v) => c.(grade := v)
    case SetSemester(v) => c.(semester := v)
    case SetTransfer(v) => c.(isTransfer := v)
    case SetOriginalCredits(v) => c.(originalCredits := Some(v))
    case SetCreditSystem(v) => c.(creditSystem := Some(v))
    case SetCourseType(v) => c.(courseType := Some(v))
    case SetInstitutionName(v) => c.(institutionName := Some(v))
    case SetRigorRating(v) => c.(rigorRating := Some(v))
  }

  /** `updateCourse`: the edit applied to every row with the id, the other rows untouched. */
  function UpdateCourse(courses: seq<Course>, id: string, e: Edit): (r: seq<Course>)
    ensures |r| == |courses|
    ensures forall i :: 0 <= i < |courses| && courses[i].id != id ==> r[i] == courses[i]
    ensures forall i :: 0 <= i < |courses| && courses[i].id == id ==> r[i] == Apply(courses[i], e)
  {
    seq(|courses|, i requires 0 <= i < |courses| => if courses[i].id == id then Apply(courses[i], e) else courses[i])
  }

  /** Removing the row just added gives the list back, when no older row shares its id. */
  lemma RemoveAdded(courses: seq<Course>, id: string)
    requires forall i :: 0 <= i < |courses| ==> courses[i].id != id
    ensures RemoveCourse(AddCourse(courses, id), id) == courses
  {
    var p := NotId(id);
    Seqs.FilterAppend(courses, [NewCourse(id)], p);
    Seqs.FilterKeepsAll(courses, p);
    assert Seqs.Filter([NewCourse(id)], p) == [];
  }

  /** Removing an id no row has changes nothing. */
  lemma RemoveAbsent(courses: seq<Course>, id: string)
    requires forall i :: 0 <= i < |courses| ==> courses[i].id != id
    ensures RemoveCourse(courses, id) == courses
  {
    Seqs.FilterKeepsAll(courses, NotId(id));
  }

  /** Editing an id no row has changes nothing. */
  lemma UpdateAbsent(courses: seq<Course>, id: string, e: Edit)
    requires forall i :: 0 <= i < |courses| ==> courses[i].id != id
    ensures UpdateCourse(courses, id, e) == courses
  {
  }

  /** Repeating an edit that keeps the id changes nothing more. */
  lemma UpdateIdempotent(courses: seq<Course>, id: string, e: Edit)
    requires !e.SetId?
    ensures UpdateCourse(UpdateCourse(courses, id, e), id, e) == UpdateCourse(courses, id, e)
  {
  }

  /** An edit that keeps the id is invisible once the row is removed. */
  lemma RemoveAfterUpdate(courses: seq<Course>, id: string, e: Edit)
    requires !e.SetId?
    ensures RemoveCourse(UpdateCourse(courses, id, e), id) == RemoveCourse(courses, id)
  {
    var updated := UpdateCourse(courses, id, e);
    FilterUpdated(courses, updated, id);
  }

  lemma {:induction false} FilterUpdated(courses: seq<Course>, updated: seq<Course>, id: string)
    requires |updated| == |courses|
    requires forall i :: 0 <= i < |courses| ==> (updated[i].id == id <==> courses[i].id == id)
    requires forall i :: 0 <= i < |courses| && courses[i].id != id ==> updated[i] == courses[i]
    ensures Seqs.Filter(updated, NotId(id)) == Seqs.Filter(courses, NotId(id))
    decreases |courses|
  {
    if courses != [] {
      FilterUpdated(courses[1..], updated[1..], id);
    }
  }

  // ---------------------------------------------------------------------------
  // Validation

  /** A row the page accepts: a name that is not blank (not empty once trimmed),
      positive credits and a grade. */
  predicate CourseValid(c: Course) {
    !IsBlank(c.name) && c.credits > 0.0 && c.grade != ""
  }

  /** A complaint about the row at `index` (counted from 0). */
  datatype ValidationError = NameRequired(index: nat) | CreditsNotPositive(index: nat) | GradeRequired(index: nat)

  /** The message the page shows, with rows numbered from 1. */
  function Message(e: ValidationError): string {
    var heading := "Course " + NatToString(e.index + 1);
    match e
    case NameRequired(_) => heading + ": Name is required"
    case CreditsNotPositive(_) => heading + ": Credits must be greater than 0"
    case GradeRequired(_) => heading + ": Grade is required"
  }

  function NameErrors(c: Course, index: nat): seq<ValidationError> {
    if IsBlank(c.name) then [NameRequired(index)] else []
  }

  function CreditErrors(c: Course, index: nat): seq<ValidationError> {
    if c.credits <= 0.0 then [CreditsNotPositive(index)] else []
  }

  function GradeErrors(c: Course, index: nat): seq<ValidationError> {
    if c.grade == "" then [GradeRequired(index)] else []
  }

  /** The complaints about one row, in the order the page checks them. */
  function CourseErrors(c: Course, index: nat): seq<ValidationError> {
    NameErrors(c, index) + CreditErrors(c, index) + GradeErrors(c, index)
  }

  /** The complaints about every row, in row order. */
  function ValidationErrors(courses: seq<Course>): seq<ValidationError>
    decreases |courses|
  {
    if courses == [] then []
    else ValidationErrors(courses[..|courses| - 1]) + CourseErrors(courses[|courses| - 1], |courses| - 1)
  }

  /** A row yields no complaint exactly when it is valid. */
  lemma CourseErrorsIff(c: Course, index: nat)
    ensures CourseErrors(c, index) == [] <==> CourseValid(c)
  {
  }

  /** There is no complaint exactly when every row is valid. */
  lemma {:induction false} NoErrorsIffAllValid(courses: seq<Course>)
    ensures ValidationErrors(courses) == [] <==> forall i :: 0 <= i < |courses| ==> CourseValid(courses[i])
    decreases |courses|
  {
    if courses != [] {
      var init, last := courses[..|courses| - 1], courses[|courses| - 1];
      NoErrorsIffAllValid(init);
      CourseErrorsIff(last, |courses| - 1);
      var before, here := ValidationErrors(init), CourseErrors(last, |courses| - 1);
      assert |ValidationErrors(courses)| == |before| + |here|;
      if forall i :: 0 <= i < |courses| ==> CourseValid(courses[i]) {
        forall i | 0 <= i < |init| ensures CourseValid(init[i]) {
          assert init[i] == courses[i];
        }
        assert CourseValid(courses[|courses| - 1]);
      }
      if ValidationErrors(courses) == [] {
        assert |before| == 0 && |here| == 0;
        assert before == [] && here == [];
        assert forall i :: 0 <= i < |init| ==> CourseValid(init[i]);
        assert CourseValid(last);
        forall i | 0 <= i < |courses| ensures CourseValid(courses[i]) {
          if i < |init| {
            assert courses[i] == init[i];
            assert CourseValid(init[i]);
          } else {
            assert i == |courses| - 1;
          }
        }
      }
    }
  }

  /** At most three complaints per row. */
  lemma {:induction false} ErrorsBound(courses: seq<Course>)
    ensures |ValidationErrors(courses)| <= 3 * |courses|
    decreases |courses|
  {
    if courses != [] {
      ErrorsBound(courses[..|courses| - 1]);
    }
  }

  lemma ErrorsStep(courses: seq<Course>, index: nat)
    requires index < |courses|
    ensures ValidationErrors(courses[..index + 1]) == ValidationErrors(courses[..index]) + CourseErrors(courses[index], index)
  {
    assert courses[..index + 1][..index] == courses[..index];
  }

  /** The three checks of one iteration together append the row's complaints. */
  lemma AppendErrors(before: seq<ValidationError>, afterName: seq<ValidationError>, afterCredits: seq<ValidationError>,
                     after: seq<ValidationError>, c: Course, index: nat)
    requires afterName == before + NameErrors(c, index)
    requires afterCredits == afterName + CreditErrors(c, index)
    requires after == afterCredits + GradeErrors(c, index)
    ensures after == before + CourseErrors(c, index)
  {
    Seqs.AppendAssoc(before, NameErrors(c, index), CreditErrors(c, index), GradeErrors(c, index));
  }

  /** `validateCourses`: collects the complaints row by row and reports whether there were none. */
  method ValidateCourses(courses: seq<Course>) returns (valid: bool, errors: seq<ValidationError>)
    ensures errors == ValidationErrors(courses)
    ensures valid <==> forall i :: 0 <= i < |courses| ==> CourseValid(courses[i])
  {
    errors := [];
    for index := 0 to |courses|
      invariant errors == ValidationErrors(courses[..index])
    {
      var course := courses[index];
      ghost var before := errors;
      var blank := Trim(course.name) == "";
      assert blank == IsBlank(course.name) by { TrimFacts(course.name); }
      if blank {
        errors := errors + [NameRequired(index)];
      }
      ghost var afterName := errors;
      if course.credits <= 0.0 {
        errors := errors + [CreditsNotPositive(index)];
      }
      ghost var afterCredits := errors;
      if course.grade == "" {
        errors := errors + [GradeRequired(index)];
      }
      AppendErrors(before, afterName, afterCredits, errors, course, index);
      ErrorsStep(courses, index);
    }
    assert courses[..|courses|] == courses;
    NoErrorsIffAllValid(courses);
    valid := |errors| == 0;
  }

  // ---------------------------------------------------------------------------
  // CSV import

  /** `Number.parseInt(text.trim()) || 3`: an unreadable or zero count becomes 3. */
  function CsvCredits(text: string): (r: real)
    ensures r != 0.0
  {
    match ParseInt(Trim(text))
    case Some(n) => if n != 0 then n as real else 3.0
    case None => 3.0
  }

  /** The default of 3 applies exactly when the count is unreadable or 0;
      any other count is taken as it is. */
  lemma CsvCreditsDefaults(text: string)
    ensures ParseInt(Trim(text)).None? ==> CsvCredits(text) == 3.0
    ensures ParseInt(Trim(text)) == Some(0) ==> CsvCredits(text) == 3.0
    ensures forall n: int :: ParseInt(Trim(text)) == Some(n) && n != 0 ==> CsvCredits(text) == n as real
  {
  }

  /** The row built from the comma fields of line `i`; its id is the clock reading
      taken for that line (`Date.now()`, read once per imported row) followed by `i`. */
  function CsvCourse(values: seq<string>, i: nat, clock: nat -> string): Course
    requires |values| >= 4
  {
    PlainCourse(clock(i) + NatToString(i), Trim(values[0]), CsvCredits(values[1]), Trim(values[2]),
                NonEmptyOr(Trim(values[3]), DefaultSemester))
  }

  /** Line `i` gives a row when it has at least four comma fields. */
  function ImportRow(line: string, i: nat, clock: nat -> string): seq<Course> {
    RowOf(Split(line, ','), i, clock)
  }

  /** The row the comma fields of line `i` give: none when there are fewer than four. */
  function RowOf(values: seq<string>, i: nat, clock: nat -> string): seq<Course> {
    if |values| >= 4 then [CsvCourse(values, i, clock)] else []
  }

  /** What every imported row looks like: non-zero credits, a trimmed name and
      grade, a semester, and not a transfer course. */
  predicate ImportedShape(c: Course) {
    c.credits != 0.0 && IsTrimmed(c.name) && IsTrimmed(c.grade) && c.semester != "" && !c.isTransfer
  }

  /** A line gives at most one row, whose id is that line's clock reading followed by the line number. */
  lemma ImportRowFacts(line: string, i: nat, clock: nat -> string)
    ensures |ImportRow(line, i, clock)| <= 1
    ensures forall c :: c in ImportRow(line, i, clock) ==> c.id == clock(i) + NatToString(i) && ImportedShape(c)
  {
    RowOfFacts(Split(line, ','), i, clock);
  }

  lemma RowOfFacts(values: seq<string>, i: nat, clock: nat -> string)
    ensures |RowOf(values, i, clock)| <= 1
    ensures forall c :: c in RowOf(values, i, clock) ==> c.id == clock(i) + NatToString(i) && ImportedShape(c)
  {
    if |values| >= 4 {
      var c := CsvCourse(values, i, clock);
      assert c.id == clock(i) + NatToString(i) && ImportedShape(c) by {
        CsvCourseFacts(values, i, clock);
      }
      forall x | x in RowOf(values, i, clock) ensures x.id == clock(i) + NatToString(i) && ImportedShape(x) {
        assert x == c;
      }
    }
  }

  lemma CsvCourseFacts(values: seq<string>, i: nat, clock: nat -> string)
    requires |values| >= 4
    ensures CsvCourse(values, i, clock).id == clock(i) + NatToString(i)
    ensures ImportedShape(CsvCourse(values, i, clock))
  {
    var c := CsvCourse(values, i, clock);
    assert IsTrimmed(c.name) by { TrimFacts(values[0]); }
    assert IsTrimmed(c.grade) by { TrimFacts(values[2]); }
  }

  /** The rows of lines `1 .. n - 1`; line 0 is the header and is skipped. */
  function ImportLines(lines: seq<string>, n: nat, clock: nat -> string): (r: seq<Course>)
    requires 1 <= n <= |lines|
    ensures |r| <= n - 1
    decreases n
  {
    if n == 1 then [] else ImportLines(lines, n - 1, clock) + ImportRow(lines[n - 1], n - 1, clock)
  }

  /** What `processCsvData` puts in place of the course list. */
  function ImportCsv(csvData: string, clock: nat -> string): seq<Course> {
    var lines := Split(Trim(csvData), '\n');
    ImportLines(lines, |lines|, clock)
  }

  /** `processCsvData`: one row per data line with at least four fields. */
  method ProcessCsvData(csvData: string, clock: nat -> string) returns (newCourses: seq<Course>)
    ensures newCourses == ImportCsv(csvData, clock)
  {
    var lines := Split(Trim(csvData), '\n');
    newCourses := [];
    for i := 1 to |lines|
      invariant newCourses == ImportLines(lines, i, clock)
    {
      var values := Split(lines[i], ',');
      if |values| >= 4 {
        newCourses := newCourses + [PlainCourse(
          clock(i) + NatToString(i),
          Trim(values[0]),
          CsvCredits(values[1]),
          Trim(values[2]),
          NonEmptyOr(Trim(values[3]), DefaultSemester))];
      }
    }
  }

  /** `id` is the clock reading of a data line `k` below `n` followed by `k`. */
  predicate IdBelow(id: string, n: nat, clock: nat -> string) {
    exists k :: 1 <= k < n && id == clock(k) + NatToString(k)
  }

  /** Every imported row has the id `clock(k) + k` of a data line `k < n`. */
  lemma {:induction false} ImportedIds(lines: seq<string>, n: nat, clock: nat -> string)
    requires 1 <= n <= |lines|
    ensures forall c :: c in ImportLines(lines, n, clock) ==> IdBelow(c.id, n, clock)
    decreases n
  {
    if n > 1 {
      var prev, row := ImportLines(lines, n - 1, clock), ImportRow(lines[n - 1], n - 1, clock);
      ImportLinesStep(lines, n, clock);
      ImportedIds(lines, n - 1, clock);
      ImportRowFacts(lines[n - 1], n - 1, clock);
      forall c: Course | c in prev + row
        ensures IdBelow(c.id, n, clock)
      {
        if c in prev {
          assert IdBelow(c.id, n - 1, clock);
          var k :| 1 <= k < n - 1 && c.id == clock(k) + NatToString(k);
          assert 1 <= k < n;
        } else {
          assert c in row;
          assert c.id == clock(n - 1) + NatToString(n - 1);
        }
      }
    }
  }

  /** No two rows share an id. */
  predicate DistinctIds(cs: seq<Course>) {
    forall i, j :: 0 <= i < j < |cs| ==> cs[i].id != cs[j].id
  }

  /** The clock readings of the data lines below `n` all have the same number of
      digits, as `Date.now()` has (13) for every instant from 2001 to 2286. */
  predicate SameWidth(clock: nat -> string, n: nat) {
    forall i, j :: 1 <= i < n && 1 <= j < n ==> |clock(i)| == |clock(j)|
  }

  /** Imported rows have pairwise distinct ids when the readings have the same width. */
  lemma {:induction false} ImportedIdsDistinct(lines: seq<string>, n: nat, clock: nat -> string)
    requires 1 <= n <= |lines| && SameWidth(clock, n)
    ensures DistinctIds(ImportLines(lines, n, clock))
    decreases n
  {
    if n > 1 {
      var prev, row := ImportLines(lines, n - 1, clock), ImportRow(lines[n - 1], n - 1, clock);
      ImportLinesStep(lines, n, clock);
      ImportedIdsDistinct(lines, n - 1, clock);
      ImportedIds(lines, n - 1, clock);
      ImportRowFacts(lines[n - 1], n - 1, clock);
      DistinctAfterAppend(prev, row, n - 1, clock);
    }
  }

  /** Appending at most one row numbered `n` to rows numbered below `n` keeps the ids distinct. */
  lemma DistinctAfterAppend(prev: seq<Course>, row: seq<Course>, n: nat, clock: nat -> string)
    requires DistinctIds(prev) && |row| <= 1 && SameWidth(clock, n + 1)
    requires forall c :: c in prev ==> IdBelow(c.id, n, clock)
    requires forall c :: c in row ==> c.id == clock(n) + NatToString(n)
    ensures DistinctIds(prev + row)
  {
    var r := prev + row;
    forall i, j | 0 <= i < j < |r| ensures r[i].id != r[j].id {
      if j < |prev| {
        assert r[i] == prev[i] && r[j] == prev[j];
      } else {
        assert i < |prev| && r[i] == prev[i];
        assert r[j] in row;
        assert prev[i] in prev;
        NewIdIsFresh(prev[i].id, n, clock);
      }
    }
  }

  /** The id of line `n` is none of the ids of the lines before it. */
  lemma NewIdIsFresh(id: string, n: nat, clock: nat -> string)
    requires IdBelow(id, n, clock) && SameWidth(clock, n + 1)
    ensures id != clock(n) + NatToString(n)
  {
    var k :| 1 <= k < n && id == clock(k) + NatToString(k);
    if id == clock(n) + NatToString(n) {
      var w := |clock(n)|;
      assert |clock(k)| == w;
      assert NatToString(k) == id[w..];
      assert NatToString(n) == id[w..];
      NatToStringInjective(k, n);
    }
  }

  /** Readings of different widths can give two lines one id: line 3 read at
      "12" and line 23 read at "1" are both "123". */
  lemma UnequalWidthsCollide()
    ensures "12" + NatToString(3) == "1" + NatToString(23)
  {
  }

  /** Every imported row has non-zero credits, a trimmed name and grade, and a semester. */
  lemma {:induction false} ImportedRowsWellFormed(lines: seq<string>, n: nat, clock: nat -> string)
    requires 1 <= n <= |lines|
    ensures forall c :: c in ImportLines(lines, n, clock) ==> ImportedShape(c)
    decreases n
  {
    if n > 1 {
      ImportedRowsWellFormed(lines, n - 1, clock);
      ImportRowFacts(lines[n - 1], n - 1, clock);
      ImportLinesStep(lines, n, clock);
    }
  }

  // ---------------------------------------------------------------------------
  // CSV round trip

  const CsvHeader := "name,credits,grade,semester"

  /** A field that survives the import unchanged: trimmed, with no comma and no line break. */
  predicate CsvField(s: string) {
    IsTrimmed(s) && ',' !in s && '\n' !in s
  }

  /** A row that the import reproduces: plain fields, a positive whole number of
      credits and a semester. */
  predicate CsvRow(c: Course) {
    && CsvField(c.name) && CsvField(c.grade) && CsvField(c.semester) && c.semester != ""
    && c.credits >= 1.0 && c.credits.Floor as real == c.credits
    && c == PlainCourse(c.id, c.name, c.credits, c.grade, c.semester)
  }

  /** The four fields a row is written as: name, whole credits, grade, semester. */
  function RowFields(c: Course): seq<string>
    requires CsvRow(c)
  {
    [c.name, NatToString(c.credits.Floor), c.grade, c.semester]
  }

  function RenderRow(c: Course): string
    requires CsvRow(c)
  {
    Join(RowFields(c), ",")
  }

  /** CSV text for a course list: the header line and one line per row. */
  function RenderCsv(cs: seq<Course>): string
    requires forall i :: 0 <= i < |cs| ==> CsvRow(cs[i])
  {
    Join([CsvHeader] + seq(|cs|, i requires 0 <= i < |cs| => RenderRow(cs[i])), "\n")
  }

  /** The rows with their ids replaced by the import's: the clock and the line number. */
  function Renumbered(cs: seq<Course>, clock: nat -> string): (r: seq<Course>)
    ensures |r| == |cs|
  {
    seq(|cs|, i requires 0 <= i < |cs| => cs[i].(id := clock(i + 1) + NatToString(i + 1)))
  }

  lemma {:induction false} JoinAvoids(xs: seq<string>, sep: char, x: char)
    requires x != sep
    requires forall i :: 0 <= i < |xs| ==> x !in xs[i]
    ensures x !in Join(xs, [sep])
    decreases |xs|
  {
    if |xs| > 1 {
      JoinAvoids(xs[1..], sep, x);
    }
  }

  lemma {:induction false} JoinEndsWithLast(xs: seq<string>, sep: string)
    requires |xs| >= 1
    ensures EndsWith(Join(xs, sep), xs[|xs| - 1])
    decreases |xs|
  {
    if |xs| > 1 {
      JoinEndsWithLast(xs[1..], sep);
      var rest := Join(xs[1..], sep);
      var last := xs[|xs| - 1];
      assert (xs[0] + sep + rest)[|xs[0] + sep + rest| - |last|..] == rest[|rest| - |last|..];
    }
  }

  /** A digit string has no white space at its ends, no comma and no line break. */
  lemma DigitsAreCsvField(n: nat)
    ensures CsvField(NatToString(n))
  {
    var s := NatToString(n);
    assert !IsSpace(s[0]) && !IsSpace(s[|s| - 1]);
    assert forall i :: 0 <= i < |s| ==> s[i] != ',' && s[i] != '\n';
  }

  /** A positive whole number of credits, written in decimal, is read back as itself. */
  lemma CsvCreditsOfDigits(n: nat)
    requires n >= 1
    ensures CsvCredits(NatToString(n)) == n as real
  {
    var digits := NatToString(n);
    assert Trim(digits) == digits by {
      DigitsAreCsvField(n);
      TrimFacts(digits);
    }
    ParseIntOfNatToString(n);
  }

  /** One rendered row splits back into its four fields and is read back as the row. */
  lemma ImportRenderedRow(c: Course, i: nat, clock: nat -> string)
    requires CsvRow(c)
    ensures ImportRow(RenderRow(c), i, clock) == [c.(id := clock(i) + NatToString(i))]
  {
    RenderedRowSplits(c);
    RowFieldsRead(c, i, clock);
    ImportRowOfFields(RenderRow(c), RowFields(c), i, clock);
  }

  lemma RenderedRowSplits(c: Course)
    requires CsvRow(c)
    ensures Split(RenderRow(c), ',') == RowFields(c)
  {
    DigitsAreCsvField(c.credits.Floor);
    SplitFourFields(c.name, NatToString(c.credits.Floor), c.grade, c.semester);
  }

  /** The fields of a clean row are read back as the row under the new id. */
  lemma RowFieldsRead(c: Course, i: nat, clock: nat -> string)
    requires CsvRow(c)
    ensures CsvCourse(RowFields(c), i, clock) == c.(id := clock(i) + NatToString(i))
  {
    var n: nat := c.credits.Floor;
    assert Trim(c.name) == c.name by { TrimFacts(c.name); }
    assert Trim(c.grade) == c.grade by { TrimFacts(c.grade); }
    assert Trim(c.semester) == c.semester by { TrimFacts(c.semester); }
    assert CsvCredits(NatToString(n)) == c.credits by {
      CsvCreditsOfDigits(n);
      assert n as real == c.credits;
    }
  }

  /** Four fields without commas, joined with commas, split back into themselves. */
  lemma SplitFourFields(a: string, b: string, c: string, d: string)
    requires ',' !in a && ',' !in b && ',' !in c && ',' !in d
    ensures Split(Join([a, b, c, d], ","), ',') == [a, b, c, d]
  {
    var fields := [a, b, c, d];
    forall k | 0 <= k < |fields| ensures ',' !in fields[k] {
    }
    SplitJoin(fields, ',');
  }

  lemma ImportRowOfFields(line: string, values: seq<string>, i: nat, clock: nat -> string)
    requires Split(line, ',') == values && |values| >= 4
    ensures ImportRow(line, i, clock) == [CsvCourse(values, i, clock)]
  {
    assert ImportRow(line, i, clock) == RowOf(values, i, clock);
  }

  /** A rendered line holds no line break. */
  lemma RenderedRowHasNoBreak(c: Course)
    requires CsvRow(c)
    ensures '\n' !in RenderRow(c)
  {
    DigitsAreCsvField(c.credits.Floor);
    JoinAvoids(RowFields(c), ',', '\n');
  }

  lemma {:induction false} ImportRenderedLines(lines: seq<string>, cs: seq<Course>, n: nat, clock: nat -> string)
    requires forall i :: 0 <= i < |cs| ==> CsvRow(cs[i])
    requires |lines| == |cs| + 1
    requires forall i :: 0 <= i < |cs| ==> lines[i + 1] == RenderRow(cs[i])
    requires 1 <= n <= |lines|
    ensures ImportLines(lines, n, clock) == Renumbered(cs[..n - 1], clock)
    decreases n
  {
    if n > 1 {
      ImportRenderedLines(lines, cs, n - 1, clock);
      assert lines[n - 1] == RenderRow(cs[n - 1 - 1]);
      ImportRenderedRow(cs[n - 1 - 1], n - 1, clock);
      ImportLinesStep(lines, n, clock);
      RenumberedStep(cs, n - 1, clock);
    }
  }

  lemma ImportLinesStep(lines: seq<string>, n: nat, clock: nat -> string)
    requires 1 < n <= |lines|
    ensures ImportLines(lines, n, clock) == ImportLines(lines, n - 1, clock) + ImportRow(lines[n - 1], n - 1, clock)
  {
  }

  lemma RenumberedStep(cs: seq<Course>, m: nat, clock: nat -> string)
    requires 0 < m <= |cs|
    ensures Renumbered(cs[..m], clock) == Renumbered(cs[..m - 1], clock) + [cs[m - 1].(id := clock(m) + NatToString(m))]
  {
    var a, b := Renumbered(cs[..m], clock), Renumbered(cs[..m - 1], clock) + [cs[m - 1].(id := clock(m) + NatToString(m))];
    assert |a| == |b|;
    forall i | 0 <= i < |a| ensures a[i] == b[i] {
    }
  }

  /** The rendering starts with the header and ends with a semester or with
      the header, so `trim` leaves it alone. */
  lemma RenderedCsvTrimmed(cs: seq<Course>)
    requires forall i :: 0 <= i < |cs| ==> CsvRow(cs[i])
    ensures IsTrimmed(RenderCsv(cs))
  {
    var rows := seq(|cs|, i requires 0 <= i < |cs| => RenderRow(cs[i]));
    var lines := [CsvHeader] + rows;
    var text := RenderCsv(cs);
    JoinEndsWithLast(lines, "\n");
    var last := lines[|lines| - 1];
    assert last != [] && !IsSpace(last[|last| - 1]) by {
      if |cs| > 0 {
        var c := cs[|cs| - 1];
        assert last == RenderRow(c);
        var sem := c.semester;
        JoinEndsWithLast(RowFields(c), ",");
        assert sem != [] && !IsSpace(sem[|sem| - 1]);
        assert last[|last| - 1] == sem[|sem| - 1];
      } else {
        assert last == CsvHeader;
      }
    }
    assert text[|text| - 1] == last[|last| - 1];
    assert text[0] == 'n' by {
      if |lines| > 1 {
        assert text == CsvHeader + "\n" + Join(lines[1..], "\n");
      }
    }
  }

  /** Splitting the rendering at line breaks gives back its lines. */
  lemma RenderedCsvSplits(cs: seq<Course>)
    requires forall i :: 0 <= i < |cs| ==> CsvRow(cs[i])
    ensures Split(RenderCsv(cs), '\n') == [CsvHeader] + seq(|cs|, i requires 0 <= i < |cs| => RenderRow(cs[i]))
  {
    var lines := [CsvHeader] + seq(|cs|, i requires 0 <= i < |cs| => RenderRow(cs[i]));
    forall i | 0 <= i < |lines| ensures '\n' !in lines[i] {
      if i > 0 {
        RenderedRowHasNoBreak(cs[i - 1]);
      }
    }
    SplitJoin(lines, '\n');
  }

  /** Importing the CSV rendering of clean rows gives the rows back, renumbered. */
  lemma ImportRendered(cs: seq<Course>, clock: nat -> string)
    requires forall i :: 0 <= i < |cs| ==> CsvRow(cs[i])
    ensures ImportCsv(RenderCsv(cs), clock) == Renumbered(cs, clock)
  {
    var lines := [CsvHeader] + seq(|cs|, i requires 0 <= i < |cs| => RenderRow(cs[i]));
    var text := RenderCsv(cs);
    assert Trim(text) == text by {
      RenderedCsvTrimmed(cs);
      TrimFacts(text);
    }
    assert Split(Trim(text), '\n') == lines by {
      RenderedCsvSplits(cs);
    }
    ImportRenderedLines(lines, cs, |lines|, clock);
    assert cs[..|lines| - 1] == cs;
  }
}
