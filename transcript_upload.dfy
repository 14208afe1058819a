/** The transcript upload component: the courses the extraction reply lists
    are normalised with defaults, edited in place by id, totalled for display
    and reshaped into the course records the transcript route expects. */
module TranscriptUpload {
  import opened Wrappers
  import opened Text
  import opened Courses
  import TranscriptGpa

  /** A course as the extraction reply lists it: every field may be missing. */
  datatype RawCourse = RawCourse(
    id: Option<string>,
    code: Option<string>,
    courseId: Option<string>,
    name: Option<string>,
    courseName: Option<string>,
    credits: Option<real>,
    grade: Option<string>,
    semester: Option<string>,
    year: Option<string>)

  /** A course as the component shows and edits it. */
  datatype ExtractedCourse = ExtractedCourse(
    id: string,
    courseId: string,
    courseName: string,
    credits: real,
    grade: string,
    semester: string,
    year: string)

  /** The extracted transcript held by the component. */
  datatype TranscriptData = TranscriptData(
    institutionName: string,
    institutionType: string,
    studentName: string,
    studentId: string,
    courses: seq<ExtractedCourse>,
    gradingScale: string,
    totalCredits: real,
    cgpa: Option<real>,
    confidence: real)

  // ---------------------------------------------------------------------------
  // Normalisation

  /** The course at position `index` after the defaults are filled in. */
  function Normalize(raw: RawCourse, index: nat): (c: ExtractedCourse)
    ensures c.credits != 0.0 && c.courseId != "" && c.semester != "" && c.year != ""
    ensures IsTruthyText(raw.id) ==> c.id == raw.id.value
  {
    ExtractedCourse(
      TextOr(raw.id, "course-" + NatToString(index)),
      TextOr(raw.code, TextOr(raw.courseId, "COURSE" + NatToString(index + 1))),
      TextOr(raw.name, TextOr(raw.courseName, "")),
      NumberOr(raw.credits, 3.0),
      TextOr(raw.grade, ""),
      TextOr(raw.semester, "Fall"),
      TextOr(raw.year, "2023"))
  }

  /** `result.data.courses.map((course, index) => ...)`. */
  function NormalizeCourses(raws: seq<RawCourse>): (cs: seq<ExtractedCourse>)
    ensures |cs| == |raws|
    ensures forall i :: 0 <= i < |raws| ==> cs[i] == Normalize(raws[i], i)
  {
    seq(|raws|, i requires 0 <= i < |raws| => Normalize(raws[i], i))
  }

  /** Each default applies exactly when its field is falsy, and a present
      field is kept: a reply without ids gets "course-<index>". */
  lemma NormalizeDefaults(raw: RawCourse, index: nat)
    ensures var c := Normalize(raw, index);
      && (c.id == if IsTruthyText(raw.id) then raw.id.value else "course-" + NatToString(index))
      && (IsTruthyText(raw.code) ==> c.courseId == raw.code.value)
      && (!IsTruthyText(raw.code) && IsTruthyText(raw.courseId) ==> c.courseId == raw.courseId.value)
      && (!IsTruthyText(raw.code) && !IsTruthyText(raw.courseId) ==> c.courseId == "COURSE" + NatToString(index + 1))
      && (c.credits == if IsTruthyNumber(raw.credits) then raw.credits.value else 3.0)
      && (c.semester == if IsTruthyText(raw.semester) then raw.semester.value else "Fall")
      && (c.year == if IsTruthyText(raw.year) then raw.year.value else "2023")
  {
  }

  /** Without ids in the reply, the default ids are pairwise distinct, so
      every course can be edited on its own. */
  lemma DefaultIdsDistinct(raws: seq<RawCourse>)
    requires forall i :: 0 <= i < |raws| ==> !IsTruthyText(raws[i].id)
    ensures forall i, j :: 0 <= i < j < |raws| ==> NormalizeCourses(raws)[i].id != NormalizeCourses(raws)[j].id
  {
    var cs := NormalizeCourses(raws);
    forall i, j | 0 <= i < j < |raws| ensures cs[i].id != cs[j].id {
      if cs[i].id == cs[j].id {
        var p := "course-";
        assert cs[i].id == p + NatToString(i) && cs[j].id == p + NatToString(j);
        assert NatToString(i) == cs[i].id[|p|..];
        assert NatToString(j) == cs[j].id[|p|..];
        NatToStringInjective(i, j);
      }
    }
  }

  /** `{ ...result.data, courses: processedCourses }`. */
  function Processed(data: TranscriptData, raws: seq<RawCourse>): (d: TranscriptData)
    ensures d.courses == NormalizeCourses(raws)
    ensures d.(courses := data.courses) == data
  {
    data.(courses := NormalizeCourses(raws))
  }

  // ---------------------------------------------------------------------------
  // Editing

  /** One edit the table offers: a field and its new value. */
  datatype Edit =
    | SetCourseId(text: string)
    | SetCourseName(text: string)
    | SetCredits(value: real)
    | SetGrade(text: string)
    | SetSemester(text: string)
    | SetYear(text: string)

  /** `{ ...course, [field]: value }`. */
  function Apply(c: ExtractedCourse, e: Edit): (r: ExtractedCourse)
    ensures r.id == c.id
  {
    match e
    case SetCourseId(t) => c.(courseId := t)
    case SetCourseName(t) => c.(courseName := t)
    case SetCredits(v) => c.(credits := v)
    case SetGrade(t) => c.(grade := t)
    case SetSemester(t) => c.(semester := t)
    case SetYear(t) => c.(year := t)
  }

  /** The courses after `courses.map((course) => course.id === courseId ? ... : course)`. */
  function UpdateCourses(cs: seq<ExtractedCourse>, id: string, e: Edit): (r: seq<ExtractedCourse>)
    ensures |r| == |cs|
    ensures forall i :: 0 <= i < |cs| ==> r[i] == if cs[i].id == id then Apply(cs[i], e) else cs[i]
  {
    seq(|cs|, i requires 0 <= i < |cs| => if cs[i].id == id then Apply(cs[i], e) else cs[i])
  }

  /** `updateCourse`: nothing happens before a transcript is loaded. */
  function UpdateCourse(data: Option<TranscriptData>, id: string, e: Edit): (r: Option<TranscriptData>)
    ensures r.None? <==> data.None?
    ensures data.Some? ==> r.value == data.value.(courses := UpdateCourses(data.value.courses, id, e))
  {
    if data.None? then None else Some(data.value.(courses := UpdateCourses(data.value.courses, id, e)))
  }

  /** Applying the same edit twice is applying it once. */
  lemma UpdateIdempotent(cs: seq<ExtractedCourse>, id: string, e: Edit)
    ensures UpdateCourses(UpdateCourses(cs, id, e), id, e) == UpdateCourses(cs, id, e)
  {
    var once := UpdateCourses(cs, id, e);
    forall i | 0 <= i < |cs| ensures UpdateCourses(once, id, e)[i] == once[i] {
      if cs[i].id == id {
        match e {
          case SetCourseId(_) =>
          case SetCourseName(_) =>
          case SetCredits(_) =>
          case SetGrade(_) =>
          case SetSemester(_) =>
          case SetYear(_) =>
        }
      }
    }
  }

  /** Edits of a semester and of a year commute. */
  lemma SemesterYearCommute(cs: seq<ExtractedCourse>, id: string, s: string, y: string)
    ensures UpdateCourses(UpdateCourses(cs, id, SetSemester(s)), id, SetYear(y))
         == UpdateCourses(UpdateCourses(cs, id, SetYear(y)), id, SetSemester(s))
  {
  }

  /** An id no course has changes nothing. */
  lemma UpdateUnknownId(cs: seq<ExtractedCourse>, id: string, e: Edit)
    requires forall i :: 0 <= i < |cs| ==> cs[i].id != id
    ensures UpdateCourses(cs, id, e) == cs
  {
  }

  /** `Number.parseInt(text) || 0`: the credits typed into the table. */
  function CreditsInput(text: string): (v: real)
    ensures v == v.Floor as real
  {
    match ParseInt(text)
    case None => 0.0
    case Some(n) => n as real
  }

  /** Typing a whole number of credits enters that number. */
  lemma CreditsInputOfNumber(n: nat)
    ensures CreditsInput(NatToString(n)) == n as real
  {
    ParseIntOfNatToString(n);
  }

  // ---------------------------------------------------------------------------
  // The semester-and-year cell

  /** `const [semester, year] = text.split(" ")`, each `|| ""`. */
  function SemesterYearTokens(text: string): (string, string) {
    var parts := Split(text, ' ');
    (parts[0], if |parts| >= 2 then parts[1] else "")
  }

  /** The cell's text is `${semester} ${year}`. */
  function SemesterYearText(c: ExtractedCourse): string {
    c.semester + " " + c.year
  }

  /** Both `updateCourse` calls of the cell's change handler start from the
      same `transcriptData` of the render that created the handler, and each
      stores a whole new transcript: the year update is stored last, so it is
      the one that stands. */
  function EditSemesterYearAsWritten(data: Option<TranscriptData>, id: string, text: string): Option<TranscriptData> {
    var (semester, year) := SemesterYearTokens(text);
    var afterSemester := UpdateCourse(data, id, SetSemester(semester));
    var afterYear := UpdateCourse(data, id, SetYear(year));
    afterYear
  }

  /** The semester edit of the handler is lost: no semester ever changes. */
  lemma AsWrittenKeepsSemester(data: TranscriptData, id: string, text: string)
    ensures var r := EditSemesterYearAsWritten(Some(data), id, text);
      && r.Some? && |r.value.courses| == |data.courses|
      && forall i :: 0 <= i < |data.courses| ==> r.value.courses[i].semester == data.courses[i].semester
  {
  }

  /** Retyping a course's cell with a new semester and year leaves the old
      semester in place and stores only the new year. */
  lemma AsWrittenLosesSemester(data: TranscriptData, k: nat, semester: string, year: string)
    requires k < |data.courses| && ' ' !in semester && ' ' !in year
    ensures var r := EditSemesterYearAsWritten(Some(data), data.courses[k].id, semester + " " + year);
      && r.Some? && |r.value.courses| == |data.courses|
      && r.value.courses[k] == data.courses[k].(year := year)
  {
    SplitJoinTwo(semester, year);
  }

  /** A course shown as "Fall 2023" and retyped as "Spring 2024" ends up as "Fall 2024". */
  lemma AsWrittenLosesSemesterExample()
    ensures var c := ExtractedCourse("course-0", "CS101", "Programming", 3.0, "A", "Fall", "2023");
      var data := TranscriptData("", "", "", "", [c], "4.0 GPA", 3.0, None, 95.0);
      var r := EditSemesterYearAsWritten(Some(data), "course-0", "Spring 2024");
      r.Some? && r.value.courses[0].semester == "Fall" && r.value.courses[0].year == "2024"
  {
    var c := ExtractedCourse("course-0", "CS101", "Programming", 3.0, "A", "Fall", "2023");
    var data := TranscriptData("", "", "", "", [c], "4.0 GPA", 3.0, None, 95.0);
    assert "Spring 2024" == "Spring" + " " + "2024";
    AsWrittenLosesSemester(data, 0, "Spring", "2024");
  }

  /** The handler with the two updates chained: the semester is set, then the year. */
  function EditSemesterYear(data: Option<TranscriptData>, id: string, text: string): Option<TranscriptData> {
    var (semester, year) := SemesterYearTokens(text);
    UpdateCourse(UpdateCourse(data, id, SetSemester(semester)), id, SetYear(year))
  }

  /** Retyping the cell as `${semester} ${year}` (neither holding a space)
      sets exactly those two fields of the courses with that id. */
  lemma EditSemesterYearSets(data: TranscriptData, id: string, semester: string, year: string)
    requires ' ' !in semester && ' ' !in year
    ensures var r := EditSemesterYear(Some(data), id, semester + " " + year);
      && r.Some? && |r.value.courses| == |data.courses|
      && forall i :: 0 <= i < |data.courses| ==>
           r.value.courses[i] == if data.courses[i].id == id
                                 then data.courses[i].(semester := semester, year := year)
                                 else data.courses[i]
  {
    SplitJoinTwo(semester, year);
  }

  /** Retyping the text the cell shows changes nothing, when neither part holds a space. */
  lemma EditShownTextUnchanged(data: TranscriptData, k: nat, id: string)
    requires k < |data.courses| && data.courses[k].id == id
    requires forall i :: 0 <= i < |data.courses| && data.courses[i].id == id ==> data.courses[i] == data.courses[k]
    requires ' ' !in data.courses[k].semester && ' ' !in data.courses[k].year
    ensures EditSemesterYear(Some(data), id, SemesterYearText(data.courses[k])) == Some(data)
  {
    var c := data.courses[k];
    EditSemesterYearSets(data, id, c.semester, c.year);
    var r := EditSemesterYear(Some(data), id, SemesterYearText(c));
    assert r.value.courses == data.courses;
  }

  lemma SplitJoinTwo(a: string, b: string)
    requires ' ' !in a && ' ' !in b
    ensures Split(a + " " + b, ' ') == [a, b]
  {
    SplitAfterPiece(a, b, ' ');
    SplitNoSeparator(b, ' ');
  }

  // ---------------------------------------------------------------------------
  // Totals and the calculation request

  /** `courses.reduce((sum, course) => sum + course.credits, 0)`. */
  function DisplayedCredits(cs: seq<ExtractedCourse>): real
    decreases |cs|
  {
    if cs == [] then 0.0 else DisplayedCredits(cs[..|cs| - 1]) + cs[|cs| - 1].credits
  }

  /** Setting the credits of the one course with an id moves the total by the difference. */
  lemma {:induction false} UpdateCreditsTotal(cs: seq<ExtractedCourse>, id: string, v: real, k: nat)
    requires k < |cs| && cs[k].id == id
    requires forall j :: 0 <= j < |cs| && j != k ==> cs[j].id != id
    ensures DisplayedCredits(UpdateCourses(cs, id, SetCredits(v))) == DisplayedCredits(cs) - cs[k].credits + v
    decreases |cs|
  {
    var n := |cs| - 1;
    var r := UpdateCourses(cs, id, SetCredits(v));
    var init := cs[..n];
    assert r[..n] == UpdateCourses(init, id, SetCredits(v));
    if k == n {
      UpdateUnknownId(init, id, SetCredits(v));
    } else {
      UpdateCreditsTotal(init, id, v, k);
    }
  }

  /** The review warning is shown for a confidence below 90. */
  predicate NeedsReview(data: TranscriptData) {
    data.confidence < 90.0
  }

  /** A course in the format the transcript route reads. */
  function ToCalculatorCourse(c: ExtractedCourse): (r: Course)
    ensures r.id == c.id && r.name == c.courseName && r.credits == c.credits && r.grade == c.grade
    ensures !r.isTransfer && r.courseType == Some("core")
  {
    Course(c.id, c.courseName, c.credits, c.grade, SemesterYearText(c), false, None, None, Some("core"), None, None)
  }

  /** The semester sent splits back into the course's semester and year. */
  lemma SentSemesterSplits(c: ExtractedCourse)
    requires ' ' !in c.semester && ' ' !in c.year
    ensures Split(ToCalculatorCourse(c).semester, ' ') == [c.semester, c.year]
    ensures SemesterYearTokens(ToCalculatorCourse(c).semester) == (c.semester, c.year)
  {
    SplitJoinTwo(c.semester, c.year);
  }

  function ToCalculatorCourses(cs: seq<ExtractedCourse>): (r: seq<Course>)
    ensures |r| == |cs|
    ensures forall i :: 0 <= i < |cs| ==> r[i] == ToCalculatorCourse(cs[i])
  {
    seq(|cs|, i requires 0 <= i < |cs| => ToCalculatorCourse(cs[i]))
  }

  /** The credits sent for calculation add up to the total shown. */
  lemma {:induction false} SentCreditsMatchShown(cs: seq<ExtractedCourse>)
    ensures TotalCredits(ToCalculatorCourses(cs)) == DisplayedCredits(cs)
    decreases |cs|
  {
    if cs != [] {
      var n := |cs| - 1;
      var r := ToCalculatorCourses(cs);
      assert r[..n] == ToCalculatorCourses(cs[..n]);
      SentCreditsMatchShown(cs[..n]);
    }
  }

  /** An institution of the component's list, with its rigor rating. */
  datatype Institution = Institution(id: string, rigor: real)

  const GlobalInstitutions: seq<Institution> := [
    Institution("iit-bombay", 4.8), Institution("iit-delhi", 4.8), Institution("iit-madras", 4.7),
    Institution("iisc-bangalore", 4.9), Institution("nit-trichy", 4.2), Institution("bits-pilani", 4.3),
    Institution("mit", 4.9), Institution("stanford", 4.8), Institution("cambridge", 4.7),
    Institution("oxford", 4.7)]

  /** `list.find((inst) => inst.id === selected)`. */
  function Find(list: seq<Institution>, selected: string): (r: Option<Institution>)
    ensures r.None? <==> forall i :: 0 <= i < |list| ==> list[i].id != selected
    ensures r.Some? ==> r.value in list && r.value.id == selected
    decreases |list|
  {
    if list == [] then None
    else if list[0].id == selected then Some(list[0])
    else
      var r := Find(list[1..], selected);
      assert forall i :: 1 <= i < |list| ==> list[i] == list[1..][i - 1];
      r
  }

  /** `institution?.rigor || 4.0`. */
  function RigorFor(list: seq<Institution>, selected: string): real {
    var found := Find(list, selected);
    if found.Some? && found.value.rigor != 0.0 then found.value.rigor else 4.0
  }

  /** Without a matching institution the rigor is 4.0; with one, the first match's rating. */
  lemma {:induction false} RigorForFirstMatch(list: seq<Institution>, selected: string, k: nat)
    requires k < |list| && list[k].id == selected
    requires forall i :: 0 <= i < k ==> list[i].id != selected
    ensures RigorFor(list, selected) == if list[k].rigor != 0.0 then list[k].rigor else 4.0
    decreases k
  {
    if k > 0 {
      assert list[1..][k - 1] == list[k];
      RigorForFirstMatch(list[1..], selected, k - 1);
    }
  }

  /** The request the component sends: the reshaped courses and the institution data. */
  function CalculationRequest(data: TranscriptData, selected: string): (req: (seq<Course>, TranscriptGpa.InstitutionData))
    ensures |req.0| == |data.courses|
    ensures req.1.rigor == RigorFor(GlobalInstitutions, selected)
    ensures (forall i :: 0 <= i < |GlobalInstitutions| ==> GlobalInstitutions[i].id != selected) ==> req.1.rigor == 4.0
  {
    (ToCalculatorCourses(data.courses),
     TranscriptGpa.InstitutionData(data.institutionName, data.gradingScale, RigorFor(GlobalInstitutions, selected), data.cgpa))
  }
}
