/** The transcript route's manual conversion to a 4.0 scale (the fallback used
    when the language-model reply is missing or is not JSON) and the sanitising
    pass every reply goes through. */
module TranscriptGpa {
  import opened Wrappers
  import opened Numbers
  import opened Courses

  /** The institution a transcript comes from. */
  datatype InstitutionData = InstitutionData(name: string, gradingScale: string, rigor: real, originalCGPA: Option<real>)

  /** One converted course as reported back. */
  datatype CourseConversion = CourseConversion(course: string, originalGrade: string, convertedGrade: real, qualityPoints: real)

  /** The conversion notes: a text given by the reply, or the manual note built
      from the rigor multiplier and the original CGPA (its wording is not modelled). */
  datatype Notes = Given(text: string) | RigorNote(rigorMultiplier: real, originalCGPA: Option<real>)

  /** The result of the manual calculation. */
  datatype ManualResult = ManualResult(
    convertedGPA: real,
    rigorAdjustedGPA: real,
    courseConversions: seq<CourseConversion>,
    conversionMethodology: string,
    confidence: real,
    conversionNotes: Notes,
    qualityAnalysis: string,
    recommendations: string,
    originalCGPA: Option<real>,
    institutionRigor: real,
    totalCourses: nat,
    totalCredits: real)

  /** A parsed conversion reply: every field may be missing. */
  datatype Reply = Reply(
    convertedGPA: Option<real>,
    rigorAdjustedGPA: Option<real>,
    courseConversions: Option<seq<CourseConversion>>,
    conversionMethodology: Option<string>,
    confidence: Option<real>,
    conversionNotes: Option<Notes>,
    qualityAnalysis: Option<string>,
    recommendations: Option<string>)

  /** A reply after sanitising. */
  datatype Sanitized = Sanitized(
    convertedGPA: real,
    rigorAdjustedGPA: real,
    courseConversions: seq<CourseConversion>,
    conversionMethodology: string,
    confidence: real,
    conversionNotes: Notes,
    qualityAnalysis: string,
    recommendations: string)

  /** What the route returns when a conversion reply came back. */
  datatype TranscriptResponse = TranscriptResponse(
    convertedGPA: real,
    details: Sanitized,
    originalCGPA: Option<real>,
    institutionRigor: real,
    totalCourses: nat,
    totalCredits: real)

  // ---------------------------------------------------------------------------
  // Conversion tables

  const TenPointScale := "10-point CGPA"

  /** The "10-point CGPA" table; its `F` entry is written twice in the source with the same value. */
  const TenPoint: map<string, real> := map[
    "AA" := 10.0, "AB" := 9.0, "BB" := 8.0, "BC" := 7.0, "CC" := 6.0, "CD" := 5.0, "DD" := 4.0, "F" := 0.0,
    "A+" := 10.0, "A" := 9.0, "A-" := 8.0, "B+" := 7.0, "B" := 6.0, "B-" := 5.0, "C+" := 4.0, "C" := 3.0,
    "D" := 2.0, "O" := 10.0]

  /** The "4.0 GPA" table, which the "Letter Grades" table repeats. */
  const FourPoint: map<string, real> := map[
    "A" := 4.0, "A-" := 3.7, "B+" := 3.3, "B" := 3.0, "B-" := 2.7, "C+" := 2.3, "C" := 2.0,
    "C-" := 1.7, "D+" := 1.3, "D" := 1.0, "F" := 0.0]

  const ClassHonours: map<string, real> := map[
    "First" := 4.0, "2:1" := 3.5, "2:2" := 3.0, "Third" := 2.5, "Pass" := 2.0, "Fail" := 0.0]

  const Percentage: map<string, real> := map[
    "90-100" := 4.0, "80-89" := 3.5, "70-79" := 3.0, "60-69" := 2.5, "50-59" := 2.0, "40-49" := 1.0, "0-39" := 0.0]

  /** The table for a grading-scale name; an unknown name falls back to "4.0 GPA". */
  function ConversionTable(scale: string): (t: map<string, real>)
    ensures scale !in {TenPointScale, "4.0 GPA", "Class Honours", "Letter Grades", "Percentage"} ==> t == FourPoint
  {
    if scale == TenPointScale then TenPoint
    else if scale == "4.0 GPA" || scale == "Letter Grades" then FourPoint
    else if scale == "Class Honours" then ClassHonours
    else if scale == "Percentage" then Percentage
    else FourPoint
  }

  /** A grading scale as the conversion uses it: its table and whether it is the 10-point scale. */
  datatype Scale = Scale(table: map<string, real>, tenPoint: bool)

  function ScaleOf(name: string): Scale {
    Scale(ConversionTable(name), name == TenPointScale)
  }

  /** Every entry lies in [0, 10] on the 10-point scale and in [0, 4] on any other. */
  predicate ValidScale(sc: Scale) {
    forall g :: g in sc.table ==> 0.0 <= sc.table[g] <= (if sc.tenPoint then 10.0 else 4.0)
  }

  /** Every table the conversion knows keeps its entries within its scale. */
  lemma ScaleOfValid(name: string)
    ensures ValidScale(ScaleOf(name))
  {
    TablesWithin();
  }

  /** Every entry of `t` lies in [0, hi]. */
  predicate TableWithin(t: map<string, real>, hi: real) {
    forall g :: g in t ==> 0.0 <= t[g] <= hi
  }

  lemma TablesWithin()
    ensures TableWithin(TenPoint, 10.0) && TableWithin(FourPoint, 4.0)
    ensures TableWithin(ClassHonours, 4.0) && TableWithin(Percentage, 4.0)
  {
    TenPointWithin();
    FourPointWithin();
    ClassHonoursWithin();
    PercentageWithin();
  }

  lemma TenPointWithin() ensures TableWithin(TenPoint, 10.0) { }
  lemma FourPointWithin() ensures TableWithin(FourPoint, 4.0) { }
  lemma ClassHonoursWithin() ensures TableWithin(ClassHonours, 4.0) { }
  lemma PercentageWithin() ensures TableWithin(Percentage, 4.0) { }

  /** A grade's table value (0 when the table lacks it), with 10-point values above 4 scaled by 4/10. */
  function ConvertWith(sc: Scale, grade: string): real {
    var gradePoints := GradePoints(sc.table, grade);
    if sc.tenPoint && gradePoints > 4.0 then gradePoints / 10.0 * 4.0 else gradePoints
  }

  /** On a scale whose entries lie within its range, every converted grade lies in [0, 4]. */
  lemma ConvertWithin(sc: Scale, grade: string)
    requires ValidScale(sc)
    ensures 0.0 <= ConvertWith(sc, grade) <= 4.0
    ensures grade !in sc.table ==> ConvertWith(sc, grade) == 0.0
  {
    if grade in sc.table {
      var gp := sc.table[grade];
      assert 0.0 <= gp <= 10.0;
      if sc.tenPoint && gp > 4.0 {
        assert gp / 10.0 * 4.0 <= 4.0;
      }
    }
  }

  /** A grade on the 4.0 scale. */
  function ConvertGrade(scale: string, grade: string): (r: real)
    ensures 0.0 <= r <= 4.0
    ensures grade !in ConversionTable(scale) ==> r == 0.0
  {
    var sc := ScaleOf(scale);
    ScaleOfValid(scale);
    ConvertWithin(sc, grade);
    ConvertWith(sc, grade)
  }

  /** A course's converted grade weighted by its credits. */
  function QualityPoints(c: Course, sc: Scale): real {
    ConvertWith(sc, c.grade) * c.credits
  }

  function Conversion(c: Course, sc: Scale): CourseConversion {
    CourseConversion(c.name, c.grade, Round2(ConvertWith(sc, c.grade)), Round2(QualityPoints(c, sc)))
  }

  /** One conversion per course, in order. */
  function ConversionsOf(cs: seq<Course>, sc: Scale): (r: seq<CourseConversion>)
    ensures |r| == |cs|
    ensures forall i :: 0 <= i < |cs| ==> r[i] == Conversion(cs[i], sc)
    decreases |cs|
  {
    if cs == [] then [] else ConversionsOf(cs[..|cs| - 1], sc) + [Conversion(cs[|cs| - 1], sc)]
  }

  /** The sum of the converted grades weighted by credits. */
  function SumPoints(cs: seq<Course>, sc: Scale): real
    decreases |cs|
  {
    if cs == [] then 0.0 else SumPoints(cs[..|cs| - 1], sc) + QualityPoints(cs[|cs| - 1], sc)
  }

  /** `totalCredits > 0 ? totalPoints / totalCredits : 0`. */
  function BaseGpa(points: real, credits: real): real {
    if credits > 0.0 then points / credits else 0.0
  }

  /** The institution's rigor over 4, capped at 1.2. */
  function RigorMultiplier(rigor: real): (m: real)
    ensures m <= 1.2
    ensures rigor <= 4.8 ==> m == rigor / 4.0
  {
    Min(rigor / 4.0, 1.2)
  }

  /** The base GPA scaled by the rigor multiplier, capped at 4.0. */
  function RigorAdjusted(base: real, rigor: real): (r: real)
    ensures r <= 4.0
  {
    Min(base * RigorMultiplier(rigor), 4.0)
  }

  function Methodology(scale: string): string {
    "Manual conversion from " + scale + " to 4.0 scale using standard conversion factors"
  }

  const ManualAnalysis := "Manual calculation completed successfully with comprehensive grade mapping"
  const ManualRecommendations :=
    "Results calculated using established conversion standards. Consider professional credential evaluation for official purposes."

  /** What the manual calculation returns for a course list. */
  function Manual(courses: seq<Course>, inst: InstitutionData): ManualResult {
    ManualWith(courses, inst, ScaleOf(inst.gradingScale))
  }

  /** The manual result for a course list converted on the scale `sc`. */
  function ManualWith(courses: seq<Course>, inst: InstitutionData, sc: Scale): ManualResult {
    var base := BaseGpa(SumPoints(courses, sc), TotalCredits(courses));
    ManualResult(
      Round2(base),
      Round2(RigorAdjusted(base, inst.rigor)),
      ConversionsOf(courses, sc),
      Methodology(inst.gradingScale),
      88.0,
      RigorNote(RigorMultiplier(inst.rigor), inst.originalCGPA),
      ManualAnalysis,
      ManualRecommendations,
      inst.originalCGPA,
      inst.rigor,
      |courses|,
      TotalCredits(courses))
  }

  /** Extending a prefix by one course extends each running sum by that course. */
  lemma PrefixStep(cs: seq<Course>, i: nat, sc: Scale)
    requires i < |cs|
    ensures SumPoints(cs[..i + 1], sc) == SumPoints(cs[..i], sc) + QualityPoints(cs[i], sc)
    ensures TotalCredits(cs[..i + 1]) == TotalCredits(cs[..i]) + cs[i].credits
    ensures ConversionsOf(cs[..i + 1], sc) == ConversionsOf(cs[..i], sc) + [Conversion(cs[i], sc)]
  {
    assert cs[..i + 1][..i] == cs[..i];
  }

  /** One course looked up in its scale's table. */
  method ScoreCourse(conversionMap: map<string, real>, isTenPoint: bool, course: Course) returns (gradePoints: real, qualityPoints: real)
    ensures gradePoints == ConvertWith(Scale(conversionMap, isTenPoint), course.grade)
    ensures qualityPoints == QualityPoints(course, Scale(conversionMap, isTenPoint))
  {
    gradePoints := GradePoints(conversionMap, course.grade);
    if isTenPoint && gradePoints > 4.0 {
      gradePoints := gradePoints / 10.0 * 4.0;
    }
    qualityPoints := gradePoints * course.credits;
  }

  /** The loop of the manual calculation: accumulates points and credits and
      pushes a conversion per course. */
  method TallyCourses(courses: seq<Course>, conversionMap: map<string, real>, isTenPoint: bool)
    returns (totalPoints: real, totalCredits: real, courseConversions: seq<CourseConversion>)
    ensures totalPoints == SumPoints(courses, Scale(conversionMap, isTenPoint))
    ensures totalCredits == TotalCredits(courses)
    ensures courseConversions == ConversionsOf(courses, Scale(conversionMap, isTenPoint))
  {
    ghost var sc := Scale(conversionMap, isTenPoint);
    totalPoints, totalCredits := 0.0, 0.0;
    courseConversions := [];
    for i := 0 to |courses|
      invariant totalPoints == SumPoints(courses[..i], sc)
      invariant totalCredits == TotalCredits(courses[..i])
      invariant courseConversions == ConversionsOf(courses[..i], sc)
    {
      var course := courses[i];
      var gradePoints, qualityPoints := ScoreCourse(conversionMap, isTenPoint, course);
      totalPoints := totalPoints + qualityPoints;
      totalCredits := totalCredits + course.credits;
      courseConversions := courseConversions + [CourseConversion(course.name, course.grade, Round2(gradePoints), Round2(qualityPoints))];
      PrefixStep(courses, i, sc);
    }
    assert courses[..|courses|] == courses;
  }

  /** The manual calculation (`performManualCalculation`). */
  method PerformManualCalculation(courses: seq<Course>, inst: InstitutionData) returns (r: ManualResult)
    ensures r == Manual(courses, inst)
  {
    var scale := inst.gradingScale;
    var sc := ScaleOf(scale);
    var totalPoints, totalCredits, courseConversions := TallyCourses(courses, sc.table, sc.tenPoint);
    var baseGPA := if totalCredits > 0.0 then totalPoints / totalCredits else 0.0;
    var rigorMultiplier := Min(inst.rigor / 4.0, 1.2);
    assert rigorMultiplier == RigorMultiplier(inst.rigor);
    var rigorAdjustedGPA := Min(baseGPA * rigorMultiplier, 4.0);
    assert rigorAdjustedGPA == RigorAdjusted(baseGPA, inst.rigor);
    r := ManualResult(
      Round2(baseGPA), Round2(rigorAdjustedGPA), courseConversions, Methodology(scale), 88.0,
      RigorNote(rigorMultiplier, inst.originalCGPA), ManualAnalysis, ManualRecommendations,
      inst.originalCGPA, inst.rigor, |courses|, totalCredits);
    assert r == ManualWith(courses, inst, sc);
  }

  // ---------------------------------------------------------------------------
  // Sanitising a reply

  /** The conversions put in place of a list whose length does not match: a B (3.0) for every course. */
  function DefaultConversions(courses: seq<Course>): (r: seq<CourseConversion>)
    ensures |r| == |courses|
    ensures forall i :: 0 <= i < |courses| ==>
      r[i] == CourseConversion(courses[i].name, courses[i].grade, 3.0, 3.0 * courses[i].credits)
  {
    seq(|courses|, i requires 0 <= i < |courses| => CourseConversion(courses[i].name, courses[i].grade, 3.0, 3.0 * courses[i].credits))
  }

  /** `notes || d`: a given empty text is falsy, the manual note never is. */
  function NotesOr(o: Option<Notes>, d: string): Notes {
    if o.Some? && o.value != Given("") then o.value else Given(d)
  }

  /** `results.courseConversions || []`. */
  function GivenConversions(reply: Reply): seq<CourseConversion> {
    if reply.courseConversions.Some? then reply.courseConversions.value else []
  }

  /** How a reply's GPA comes out of the sanitiser: kept when it lies in
      [0, 4], raised to 0 below, lowered to 4 above, and 0 when missing. */
  predicate GpaKept(given: Option<real>, out: real) {
    && (given.None? ==> out == 0.0)
    && (given.Some? && 0.0 <= given.value <= 4.0 ==> out == given.value)
    && (given.Some? && given.value < 0.0 ==> out == 0.0)
    && (given.Some? && given.value > 4.0 ==> out == 4.0)
  }

  /** A reply the sanitiser has nothing to correct: both GPAs present and in
      [0, 4], a confidence in (0, 100], one conversion per course, and every
      text present and non-empty. */
  predicate ValidReply(reply: Reply, courses: seq<Course>) {
    && reply.convertedGPA.Some? && 0.0 <= reply.convertedGPA.value <= 4.0
    && reply.rigorAdjustedGPA.Some? && 0.0 <= reply.rigorAdjustedGPA.value <= 4.0
    && reply.confidence.Some? && 0.0 < reply.confidence.value <= 100.0
    && reply.courseConversions.Some? && |reply.courseConversions.value| == |courses|
    && reply.conversionMethodology.Some? && reply.conversionMethodology.value != ""
    && reply.conversionNotes.Some? && reply.conversionNotes.value != Given("")
    && reply.qualityAnalysis.Some? && reply.qualityAnalysis.value != ""
    && reply.recommendations.Some? && reply.recommendations.value != ""
  }

  /** The sanitised form of a reply for a course list. */
  function Sanitize(reply: Reply, courses: seq<Course>): (s: Sanitized)
    ensures 0.0 <= s.convertedGPA <= 4.0 && 0.0 <= s.rigorAdjustedGPA <= 4.0
    ensures 0.0 <= s.confidence <= 100.0
    ensures |s.courseConversions| == |courses|
    ensures s.conversionMethodology != "" && s.qualityAnalysis != "" && s.recommendations != ""
    ensures s.conversionNotes != Given("")
    ensures |GivenConversions(reply)| == |courses| ==>
      s.courseConversions == GivenConversions(reply) && s.confidence == Clamp(NumberOr(reply.confidence, 80.0), 0.0, 100.0)
    ensures |GivenConversions(reply)| != |courses| ==>
      && s.courseConversions == DefaultConversions(courses)
      && s.confidence == Min(Clamp(NumberOr(reply.confidence, 80.0), 0.0, 100.0), 70.0)
      && s.confidence <= 70.0
    ensures GpaKept(reply.convertedGPA, s.convertedGPA) && GpaKept(reply.rigorAdjustedGPA, s.rigorAdjustedGPA)
  {
    var conversions := GivenConversions(reply);
    var confidence := Clamp(NumberOr(reply.confidence, 80.0), 0.0, 100.0);
    var matched := |conversions| == |courses|;
    Sanitized(
      Clamp(NumberOr(reply.convertedGPA, 0.0), 0.0, 4.0),
      Clamp(NumberOr(reply.rigorAdjustedGPA, 0.0), 0.0, 4.0),
      if matched then conversions else DefaultConversions(courses),
      TextOr(reply.conversionMethodology, "AI-powered conversion with validation"),
      if matched then confidence else Min(confidence, 70.0),
      NotesOr(reply.conversionNotes, "Conversion completed successfully"),
      TextOr(reply.qualityAnalysis, "Academic performance analysis completed"),
      TextOr(reply.recommendations, "Results validated and ready for use"))
  }

  /** `validateAndSanitizeResults`: builds the sanitised record, then replaces
      a mismatched conversion list and caps the confidence in place. */
  method ValidateAndSanitizeResults(reply: Reply, courses: seq<Course>) returns (sanitized: Sanitized)
    ensures sanitized == Sanitize(reply, courses)
  {
    sanitized := Sanitized(
      Clamp(NumberOr(reply.convertedGPA, 0.0), 0.0, 4.0),
      Clamp(NumberOr(reply.rigorAdjustedGPA, 0.0), 0.0, 4.0),
      GivenConversions(reply),
      TextOr(reply.conversionMethodology, "AI-powered conversion with validation"),
      Clamp(NumberOr(reply.confidence, 80.0), 0.0, 100.0),
      NotesOr(reply.conversionNotes, "Conversion completed successfully"),
      TextOr(reply.qualityAnalysis, "Academic performance analysis completed"),
      TextOr(reply.recommendations, "Results validated and ready for use"));
    if |sanitized.courseConversions| != |courses| {
      sanitized := sanitized.(courseConversions := DefaultConversions(courses));
      sanitized := sanitized.(confidence := Min(sanitized.confidence, 70.0));
    }
  }

  /** The manual result read back as a reply (the fallback when the reply is not JSON). */
  function AsReply(m: ManualResult): Reply {
    Reply(Some(m.convertedGPA), Some(m.rigorAdjustedGPA), Some(m.courseConversions), Some(m.conversionMethodology),
          Some(m.confidence), Some(m.conversionNotes), Some(m.qualityAnalysis), Some(m.recommendations))
  }

  /** A sanitised record read back as a reply. */
  function SanitizedAsReply(s: Sanitized): Reply {
    Reply(Some(s.convertedGPA), Some(s.rigorAdjustedGPA), Some(s.courseConversions), Some(s.conversionMethodology),
          Some(s.confidence), Some(s.conversionNotes), Some(s.qualityAnalysis), Some(s.recommendations))
  }

  /** The route's answer when a conversion reply came back: a parsed reply,
      or `None` when it was not JSON and the manual result stands in. */
  function ConvertTranscript(courses: seq<Course>, inst: InstitutionData, parsed: Option<Reply>): TranscriptResponse {
    var reply := if parsed.Some? then parsed.value else AsReply(Manual(courses, inst));
    var s := Sanitize(reply, courses);
    TranscriptResponse(s.convertedGPA, s, inst.originalCGPA, inst.rigor, |courses|, TotalCredits(courses))
  }

  // ---------------------------------------------------------------------------
  // Properties

  /** A product of a value in [0, 4] and a non-negative factor. */
  lemma ScaledWithin(g: real, k: real)
    requires 0.0 <= g <= 4.0 && 0.0 <= k
    ensures 0.0 <= g * k <= 4.0 * k
  {
  }

  /** One course contributes between 0 and 4 points per credit. */
  lemma QualityWithin(c: Course, sc: Scale)
    requires ValidScale(sc) && c.credits >= 0.0
    ensures 0.0 <= QualityPoints(c, sc) <= 4.0 * c.credits
  {
    var g := ConvertWith(sc, c.grade);
    assert 0.0 <= g <= 4.0 by { ConvertWithin(sc, c.grade); }
    ScaledWithin(g, c.credits);
    assert 0.0 <= g * c.credits <= 4.0 * c.credits;
    assert QualityPoints(c, sc) == g * c.credits;
  }

  /** With non-negative credits the points lie between 0 and 4 per credit. */
  lemma {:induction false} PointsWithin(cs: seq<Course>, sc: Scale)
    requires ValidScale(sc) && NonNegativeCredits(cs)
    ensures 0.0 <= TotalCredits(cs)
    ensures 0.0 <= SumPoints(cs, sc) <= 4.0 * TotalCredits(cs)
    decreases |cs|
  {
    if cs != [] {
      var init := cs[..|cs| - 1];
      assert NonNegativeCredits(init) by {
        forall i | 0 <= i < |init| ensures init[i].credits >= 0.0 {
          assert init[i] == cs[i];
        }
      }
      PointsWithin(init, sc);
      QualityWithin(cs[|cs| - 1], sc);
    }
  }

  /** An average of points that lie between 0 and 4 per credit lies in [0, 4]. */
  lemma BaseGpaWithin(points: real, credits: real)
    requires 0.0 <= points <= 4.0 * credits
    ensures 0.0 <= BaseGpa(points, credits) <= 4.0
  {
    if credits > 0.0 {
      assert points / credits * credits == points;
    }
  }

  /** With non-negative credits and rigor, both GPAs of the manual calculation lie in [0, 4]. */
  lemma ManualGpaWithin(courses: seq<Course>, inst: InstitutionData)
    requires NonNegativeCredits(courses) && inst.rigor >= 0.0
    ensures 0.0 <= Manual(courses, inst).convertedGPA <= 4.0
    ensures 0.0 <= Manual(courses, inst).rigorAdjustedGPA <= 4.0
  {
    ScaleOfValid(inst.gradingScale);
    ManualWithGpaWithin(courses, inst, ScaleOf(inst.gradingScale));
  }

  /** The same bound for any scale whose entries lie within its range. */
  lemma ManualWithGpaWithin(courses: seq<Course>, inst: InstitutionData, sc: Scale)
    requires ValidScale(sc) && NonNegativeCredits(courses) && inst.rigor >= 0.0
    ensures 0.0 <= ManualWith(courses, inst, sc).convertedGPA <= 4.0
    ensures 0.0 <= ManualWith(courses, inst, sc).rigorAdjustedGPA <= 4.0
  {
    PointsWithin(courses, sc);
    var base := BaseGpa(SumPoints(courses, sc), TotalCredits(courses));
    BaseGpaWithin(SumPoints(courses, sc), TotalCredits(courses));
    Round2OfCents(0.0);
    Round2OfCents(4.0);
    Round2Between(base, 0.0, 4.0);
    var m := RigorMultiplier(inst.rigor);
    assert 0.0 <= base * m;
    Round2Between(RigorAdjusted(base, inst.rigor), 0.0, 4.0);
  }

  /** The rigor adjustment lowers a GPA for an institution rated below 4 and
      raises it (up to the 4.0 cap) for one rated above. */
  lemma RigorAdjustedOrder(base: real, rigor: real)
    requires 0.0 <= base <= 4.0 && 0.0 <= rigor
    ensures rigor <= 4.0 ==> RigorAdjusted(base, rigor) <= base
    ensures rigor >= 4.0 ==> RigorAdjusted(base, rigor) >= base
    ensures rigor == 4.0 ==> RigorAdjusted(base, rigor) == base
  {
    var m := RigorMultiplier(rigor);
    assert RigorAdjusted(base, rigor) == Min(base * m, 4.0);
    if rigor <= 4.0 {
      assert m <= 1.0;
      ScaleBelow(base, m);
    }
    if rigor >= 4.0 {
      assert m >= 1.0;
      ScaleAbove(base, m);
    }
  }

  lemma ScaleBelow(base: real, m: real)
    requires 0.0 <= base && m <= 1.0
    ensures base * m <= base
  {
    assert base * m <= base * 1.0;
  }

  lemma ScaleAbove(base: real, m: real)
    requires 0.0 <= base && m >= 1.0
    ensures base * m >= base
  {
    assert base * m >= base * 1.0;
  }

  /** A manual result run through the sanitiser keeps its numbers, its
      conversions and its confidence of 88. */
  lemma SanitizeKeepsManual(courses: seq<Course>, inst: InstitutionData)
    requires NonNegativeCredits(courses) && inst.rigor >= 0.0
    ensures var m := Manual(courses, inst);
      var s := Sanitize(AsReply(m), courses);
      && s.convertedGPA == m.convertedGPA
      && s.rigorAdjustedGPA == m.rigorAdjustedGPA
      && s.courseConversions == m.courseConversions
      && s.confidence == 88.0
      && s.conversionMethodology == m.conversionMethodology
      && s.conversionNotes == m.conversionNotes
  {
    ManualGpaWithin(courses, inst);
  }

  /** When the reply is not JSON the response carries the manual numbers. */
  lemma UnparsedReplyGivesManual(courses: seq<Course>, inst: InstitutionData)
    requires NonNegativeCredits(courses) && inst.rigor >= 0.0
    ensures var m := Manual(courses, inst);
      var t := ConvertTranscript(courses, inst, None);
      && t.convertedGPA == m.convertedGPA
      && t.details.rigorAdjustedGPA == m.rigorAdjustedGPA
      && t.details.courseConversions == m.courseConversions
      && t.details.confidence == 88.0
      && t.totalCourses == |courses|
      && t.totalCredits == m.totalCredits
  {
    SanitizeKeepsManual(courses, inst);
  }

  /** Sanitising twice changes nothing, as long as the confidence did not come out as 0. */
  /** The sanitiser passes a valid reply through unchanged. */
  lemma SanitizeKeepsValid(reply: Reply, courses: seq<Course>)
    requires ValidReply(reply, courses)
    ensures SanitizedAsReply(Sanitize(reply, courses)) == reply
  {
  }

  lemma SanitizeIdempotent(reply: Reply, courses: seq<Course>)
    requires Sanitize(reply, courses).confidence != 0.0
    ensures Sanitize(SanitizedAsReply(Sanitize(reply, courses)), courses) == Sanitize(reply, courses)
  {
    var s := Sanitize(reply, courses);
    var again := Sanitize(SanitizedAsReply(s), courses);
    assert again.convertedGPA == s.convertedGPA;
    assert again.rigorAdjustedGPA == s.rigorAdjustedGPA;
    assert again.confidence == s.confidence;
  }

  /** A negative confidence is clamped to 0, and a 0 counts as missing: sanitising
      the result again turns it into 80. */
  lemma ZeroConfidenceBecomesDefault(courses: seq<Course>)
    ensures var reply := Reply(None, None, Some(DefaultConversions(courses)), None, Some(-5.0), None, None, None);
      && Sanitize(reply, courses).confidence == 0.0
      && Sanitize(SanitizedAsReply(Sanitize(reply, courses)), courses).confidence == 80.0
  {
  }

  /** Grades on the 10-point scale above 4 are scaled by 4/10; an unknown scale uses the 4.0 table. */
  lemma ConvertGradeExamples()
    ensures ConvertGrade(TenPointScale, "AA") == 4.0
    ensures ConvertGrade(TenPointScale, "A") == 3.6
    ensures ConvertGrade(TenPointScale, "DD") == 4.0
    ensures ConvertGrade(TenPointScale, "C") == 3.0
    ensures ConvertGrade("ECTS", "B+") == 3.3
    ensures ConvertGrade("Class Honours", "2:1") == 3.5
    ensures ConvertGrade("Percentage", "A") == 0.0
  {
  }

  // ---------------------------------------------------------------------------
  // The 10-point rescaling threshold

  /** Only 10-point values above 4 are rescaled, so "DD" (4 of 10) converts to
      4.0 while the better "AB" (9 of 10) converts to 3.6. */
  lemma TenPointOrderInverted()
    ensures "DD" in TenPoint && "AB" in TenPoint && TenPoint["DD"] < TenPoint["AB"]
    ensures ConvertGrade(TenPointScale, "DD") == 4.0 && ConvertGrade(TenPointScale, "AB") == 3.6
    ensures ConvertGrade(TenPointScale, "DD") > ConvertGrade(TenPointScale, "AB")
  {
  }

  /** The conversion with every 10-point value scaled by 4/10. */
  function ConvertIntended(sc: Scale, grade: string): real {
    var gradePoints := GradePoints(sc.table, grade);
    if sc.tenPoint then gradePoints / 10.0 * 4.0 else gradePoints
  }

  /** The corrected conversion keeps the order of the table's values and stays within [0, 4]. */
  lemma ConvertIntendedMonotone(sc: Scale, a: string, b: string)
    requires ValidScale(sc) && a in sc.table && b in sc.table && sc.table[a] <= sc.table[b]
    ensures ConvertIntended(sc, a) <= ConvertIntended(sc, b)
    ensures 0.0 <= ConvertIntended(sc, a) <= 4.0
  {
    var va, vb := sc.table[a], sc.table[b];
    assert 0.0 <= va <= vb;
    if sc.tenPoint {
      assert va <= 10.0;
      assert va / 10.0 * 4.0 <= vb / 10.0 * 4.0;
    }
  }

  /** The two conversions differ only on 10-point values of at most 4. */
  lemma ConvertIntendedAgrees(sc: Scale, grade: string)
    requires !sc.tenPoint || GradePoints(sc.table, grade) > 4.0
    ensures ConvertIntended(sc, grade) == ConvertWith(sc, grade)
  {
  }
}
