/** The transfer/institutional GPA engine (the `calculate-transfer-gpa` route):
    credit-system conversion, the core-subjects filter, grade points with
    course-type bonuses and the transfer rigor multiplier, the cap above the
    scale, the institutional/transfer/cumulative sums, the three GPAs and the
    ordered policy warnings. The language-model validation and insight calls are
    outside the model; the insight reply is a parameter. */
module TransferGpa {
  import opened Wrappers
  import opened Numbers
  import opened Text
  import opened Courses
  import Seqs

  datatype Settings = Settings(
    includeTransferInGPA: bool,
    separateTransferGPA: bool,
    coreSubjectsOnly: bool,
    honorsBonusPoints: real,
    apBonusPoints: real,
    rigorAdjustment: real)

  /** A course with the credits it counts for at this institution. */
  datatype ConvertedCourse = ConvertedCourse(course: Course, convertedCredits: real)

  /** The warnings the engine emits, one constructor per message template. */
  datatype Warning =
    | RigorAdjusted(courseName: string, multiplier: real)
    | CreditsConverted(courseName: string, creditSystem: Option<string>, originalCredits: Option<real>, convertedCredits: real)
    | TransferExcluded
    | TransferExceedsInstitutional

  /** A course as reported back: the converted course with its rounded points. */
  datatype CourseDetail = CourseDetail(course: ConvertedCourse, adjustedGradePoints: real, qualityPoints: real)

  /** The six running sums of the main loop. */
  datatype Totals = Totals(
    institutionalPoints: real, institutionalCredits: real,
    transferPoints: real, transferCredits: real,
    totalPoints: real, totalCredits: real)

  datatype Breakdown = Breakdown(
    totalCredits: real, transferCredits: real, institutionalCredits: real,
    qualityPoints: real, transferQualityPoints: real, institutionalQualityPoints: real)

  datatype TransferResult = TransferResult(
    institutional: Option<real>,
    transfer: Option<real>,
    cumulative: Option<real>,
    breakdown: Breakdown,
    insights: seq<string>,
    warnings: seq<Warning>,
    courseDetails: seq<CourseDetail>)

  // ---------------------------------------------------------------------------
  // Credit conversion and the elective filter (the `map` and `filter` before the loop)

  /** The course is a transfer course with a credit system and non-zero original credits. */
  predicate HasCreditSystem(c: Course) {
    c.isTransfer && IsTruthyText(c.creditSystem) && IsTruthyNumber(c.originalCredits)
  }

  /** The semester credits a course counts for. */
  function ConvertCredits(c: Course): (r: real)
    ensures !HasCreditSystem(c) ==> r == c.credits
    ensures HasCreditSystem(c) && c.creditSystem.value == "quarter" ==>
      IsTenths(r) && c.originalCredits.value * 0.67 - 0.05 < r <= c.originalCredits.value * 0.67 + 0.05
    ensures HasCreditSystem(c) && c.creditSystem.value == "trimester" ==>
      IsTenths(r) && c.originalCredits.value * 0.75 - 0.05 < r <= c.originalCredits.value * 0.75 + 0.05
    ensures HasCreditSystem(c) && c.creditSystem.value !in {"quarter", "trimester"} ==>
      r == c.originalCredits.value
  {
    if !HasCreditSystem(c) then c.credits
    else if c.creditSystem.value == "quarter" then Round1(c.originalCredits.value * 0.67)
    else if c.creditSystem.value == "trimester" then Round1(c.originalCredits.value * 0.75)
    else c.originalCredits.value
  }

  function ConvertAll(courses: seq<Course>): (r: seq<ConvertedCourse>)
    ensures |r| == |courses|
    ensures forall i :: 0 <= i < |r| ==> r[i].course == courses[i] && r[i].convertedCredits == ConvertCredits(courses[i])
  {
    seq(|courses|, i requires 0 <= i < |courses| => ConvertedCourse(courses[i], ConvertCredits(courses[i])))
  }

  /** The policy drops this course: core subjects only, and the course is an elective. */
  predicate IsDropped(settings: Settings, c: ConvertedCourse) {
    settings.coreSubjectsOnly && c.course.courseType == Some("elective")
  }

  function FilterCourses(cs: seq<ConvertedCourse>, settings: Settings): seq<ConvertedCourse> {
    Seqs.Filter(cs, (c: ConvertedCourse) => !IsDropped(settings, c))
  }

  // ---------------------------------------------------------------------------
  // Grade points of one course (the body of the main loop)

  /** `k` holds the largest value among `keys`. */
  predicate IsMaxKey(grades: map<string, real>, keys: set<string>, k: string)
    requires keys <= grades.Keys
  {
    k in keys && forall g :: g in keys ==> grades[g] <= grades[k]
  }

  /** `Math.max(...Object.values(grades))`. */
  ghost function MaxPoint(grades: map<string, real>): (m: real)
    requires grades != map[]
    ensures exists g :: g in grades && grades[g] == m
    ensures forall g :: g in grades ==> grades[g] <= m
  {
    MaxKeyExists(grades, grades.Keys);
    var k :| IsMaxKey(grades, grades.Keys, k);
    grades[k]
  }

  lemma {:induction false} MaxKeyExists(grades: map<string, real>, keys: set<string>)
    requires keys != {} && keys <= grades.Keys
    ensures exists k :: IsMaxKey(grades, keys, k)
    decreases |keys|
  {
    var x :| x in keys;
    if keys == {x} {
      assert IsMaxKey(grades, keys, x);
    } else {
      MaxKeyExists(grades, keys - {x});
      var k :| IsMaxKey(grades, keys - {x}, k);
      if grades[x] > grades[k] {
        assert IsMaxKey(grades, keys, x);
      } else {
        assert IsMaxKey(grades, keys, k);
      }
    }
  }

  /** Computes the largest point value of the scale, one entry at a time. */
  method MaxGradePoints(grades: map<string, real>) returns (m: real)
    requires grades != map[]
    ensures m == MaxPoint(grades)
  {
    var k :| k in grades;
    m := grades[k];
    var rest := grades.Keys - {k};
    while rest != {}
      invariant rest <= grades.Keys
      invariant exists g :: g in grades && grades[g] == m
      invariant forall g :: g in grades && g !in rest ==> grades[g] <= m
      decreases rest
    {
      var g :| g in rest;
      if grades[g] > m {
        m := grades[g];
      }
      rest := rest - {g};
    }
  }

  /** The honors or AP bonus of a course (at most one applies). */
  function Bonus(c: Course, settings: Settings): real {
    if c.courseType == Some("honors") then settings.honorsBonusPoints
    else if c.courseType == Some("ap") then settings.apBonusPoints
    else 0.0
  }

  /** `(rating / 3) * rigorAdjustment`: a rating of 3 is neutral. */
  function RigorFactor(rating: real, settings: Settings): real {
    (rating / 3.0) * settings.rigorAdjustment
  }

  /** The rigor multiplier, applied to a transfer course with a non-zero rating. */
  function RigorMultiplier(c: Course, settings: Settings): Option<real> {
    if c.isTransfer && IsTruthyNumber(c.rigorRating) then Some(RigorFactor(c.rigorRating.value, settings))
    else None
  }

  /** Grade points after the bonus, the rigor multiplier and the cap at the scale maximum + 2. */
  ghost function AdjustedGradePoints(c: Course, grades: map<string, real>, settings: Settings): real
    requires grades != map[]
  {
    Min(ApplyRigor(GradePoints(grades, c.grade) + Bonus(c, settings), c, settings), MaxPoint(grades) + 2.0)
  }

  /** Points scaled by the course's rigor multiplier, when it has one. */
  function ApplyRigor(points: real, c: Course, settings: Settings): real {
    var m := RigorMultiplier(c, settings);
    if m.Some? then points * m.value else points
  }

  ghost function QualityPoints(c: ConvertedCourse, grades: map<string, real>, settings: Settings): real
    requires grades != map[]
  {
    AdjustedGradePoints(c.course, grades, settings) * c.convertedCredits
  }

  /** The rigor warning of a course: pushed when its multiplier applies and is not 1. */
  function RigorWarnings(c: Course, settings: Settings): seq<Warning> {
    var m := RigorMultiplier(c, settings);
    if m.Some? && m.value != 1.0 then [RigorAdjusted(c.name, m.value)] else []
  }

  /** The conversion warning of a course: pushed for every transfer course not on semesters. */
  function ConversionWarnings(c: ConvertedCourse): seq<Warning> {
    if c.course.isTransfer && c.course.creditSystem != Some("semester")
    then [CreditsConverted(c.course.name, c.course.creditSystem, c.course.originalCredits, c.convertedCredits)]
    else []
  }

  /** The warnings one course adds, in the order the loop pushes them. */
  function CourseWarnings(c: ConvertedCourse, settings: Settings): seq<Warning> {
    RigorWarnings(c.course, settings) + ConversionWarnings(c)
  }

  /** Scores one course: the scale's points, the bonus, the rigor multiplier
      (with its warning) and the cap at the scale maximum + 2. */
  method ScoreCourse(entry: ConvertedCourse, grades: map<string, real>, settings: Settings)
    returns (adjusted: real, quality: real, warnings: seq<Warning>)
    requires grades != map[]
    ensures adjusted == AdjustedGradePoints(entry.course, grades, settings)
    ensures adjusted <= MaxPoint(grades) + 2.0
    ensures quality == QualityPoints(entry, grades, settings)
    ensures warnings == RigorWarnings(entry.course, settings)
  {
    var course := entry.course;
    warnings := [];
    var baseGradePoints := GradePoints(grades, course.grade);
    if course.courseType == Some("honors") {
      baseGradePoints := baseGradePoints + settings.honorsBonusPoints;
    } else if course.courseType == Some("ap") {
      baseGradePoints := baseGradePoints + settings.apBonusPoints;
    }
    ghost var withBonus := baseGradePoints;
    if course.isTransfer && IsTruthyNumber(course.rigorRating) {
      var rigorMultiplier := RigorFactor(course.rigorRating.value, settings);
      baseGradePoints := baseGradePoints * rigorMultiplier;
      if rigorMultiplier != 1.0 {
        warnings := [RigorAdjusted(course.name, rigorMultiplier)];
      }
    }
    assert baseGradePoints == ApplyRigor(withBonus, course, settings);
    var maxPoints := MaxGradePoints(grades);
    adjusted := Min(baseGradePoints, maxPoints + 2.0);
    quality := adjusted * entry.convertedCredits;
  }

  ghost function Detail(c: ConvertedCourse, grades: map<string, real>, settings: Settings): CourseDetail
    requires grades != map[]
  {
    CourseDetail(c, Round2(AdjustedGradePoints(c.course, grades, settings)), Round2(QualityPoints(c, grades, settings)))
  }

  // ---------------------------------------------------------------------------
  // The loop's accumulations, course by course

  /** Adds one course's credits and quality points to its bucket and, by policy, to the total. */
  function AddCourse(t: Totals, c: ConvertedCourse, q: real, settings: Settings): Totals {
    var t1 :=
      if c.course.isTransfer then t.(transferPoints := t.transferPoints + q, transferCredits := t.transferCredits + c.convertedCredits)
      else t.(institutionalPoints := t.institutionalPoints + q, institutionalCredits := t.institutionalCredits + c.convertedCredits);
    if !c.course.isTransfer || settings.includeTransferInGPA then
      t1.(totalPoints := t1.totalPoints + q, totalCredits := t1.totalCredits + c.convertedCredits)
    else t1
  }

  ghost function Accumulate(cs: seq<ConvertedCourse>, grades: map<string, real>, settings: Settings): Totals
    requires grades != map[]
    decreases |cs|
  {
    if cs == [] then Totals(0.0, 0.0, 0.0, 0.0, 0.0, 0.0)
    else
      var last := cs[|cs| - 1];
      AddCourse(Accumulate(cs[..|cs| - 1], grades, settings), last, QualityPoints(last, grades, settings), settings)
  }

  function CourseWarningsOf(cs: seq<ConvertedCourse>, settings: Settings): seq<Warning>
    decreases |cs|
  {
    if cs == [] then [] else CourseWarningsOf(cs[..|cs| - 1], settings) + CourseWarnings(cs[|cs| - 1], settings)
  }

  /** One detail per course, in course order. */
  ghost function DetailsOf(cs: seq<ConvertedCourse>, grades: map<string, real>, settings: Settings): (r: seq<CourseDetail>)
    requires grades != map[]
    ensures |r| == |cs|
    ensures forall i :: 0 <= i < |cs| ==> r[i] == Detail(cs[i], grades, settings)
    decreases |cs|
  {
    if cs == [] then [] else DetailsOf(cs[..|cs| - 1], grades, settings) + [Detail(cs[|cs| - 1], grades, settings)]
  }

  // ---------------------------------------------------------------------------
  // GPAs, policy warnings and the result

  /** `credits > 0 ? points / credits : null`. */
  function Average(points: real, credits: real): Option<real> {
    if credits > 0.0 then Some(points / credits) else None
  }

  /** `gpa ? Math.round(gpa * 100) / 100 : null`: a null or zero average is reported as null. */
  function Reported(gpa: Option<real>): Option<real> {
    if gpa.Some? && gpa.value != 0.0 then Some(Round2(gpa.value)) else None
  }

  /** The reported GPA of a bucket: null exactly when it has no credits or no points. */
  function BucketGpa(points: real, credits: real): (r: Option<real>)
    ensures r.None? <==> credits <= 0.0 || points == 0.0
    ensures r.Some? ==> r.value == Round2(points / credits)
  {
    Reported(Average(points, credits))
  }

  /** The warnings added after the loop, in order. */
  function PolicyWarnings(t: Totals, settings: Settings): seq<Warning> {
    (if t.transferCredits > 0.0 && !settings.includeTransferInGPA then [TransferExcluded] else [])
    + (if t.transferCredits > t.institutionalCredits * 2.0 then [TransferExceedsInstitutional] else [])
  }

  /** What the route returns for a request, apart from the language-model texts. */
  ghost function Calculate(courses: seq<Course>, grades: map<string, real>, settings: Settings, insightsReply: string): TransferResult
    requires grades != map[]
  {
    var filtered := FilterCourses(ConvertAll(courses), settings);
    var t := Accumulate(filtered, grades, settings);
    TransferResult(
      BucketGpa(t.institutionalPoints, t.institutionalCredits),
      BucketGpa(t.transferPoints, t.transferCredits),
      BucketGpa(t.totalPoints, t.totalCredits),
      Breakdown(t.totalCredits, t.transferCredits, t.institutionalCredits,
                Round2(t.totalPoints), Round2(t.transferPoints), Round2(t.institutionalPoints)),
      NonBlankLines(insightsReply),
      CourseWarningsOf(filtered, settings) + PolicyWarnings(t, settings),
      DetailsOf(filtered, grades, settings))
  }

  /** Adds a scored course to its bucket and, by policy, to the cumulative
      sums; a transfer course not on semesters gets a conversion warning. */
  method TallyCourse(totals: Totals, entry: ConvertedCourse, qualityPoints: real, settings: Settings)
    returns (next: Totals, warnings: seq<Warning>)
    ensures next == AddCourse(totals, entry, qualityPoints, settings)
    ensures warnings == ConversionWarnings(entry)
  {
    var course := entry.course;
    next := totals;
    warnings := [];
    if course.isTransfer {
      next := next.(transferPoints := next.transferPoints + qualityPoints,
                    transferCredits := next.transferCredits + entry.convertedCredits);
      if course.creditSystem != Some("semester") {
        warnings := [CreditsConverted(course.name, course.creditSystem, course.originalCredits, entry.convertedCredits)];
      }
    } else {
      next := next.(institutionalPoints := next.institutionalPoints + qualityPoints,
                    institutionalCredits := next.institutionalCredits + entry.convertedCredits);
    }
    if !course.isTransfer || settings.includeTransferInGPA {
      next := next.(totalPoints := next.totalPoints + qualityPoints,
                    totalCredits := next.totalCredits + entry.convertedCredits);
    }
  }

  /** What the loop adds when it moves from the first `i` courses to the first `i + 1`. */
  lemma PrefixStep(cs: seq<ConvertedCourse>, i: nat, grades: map<string, real>, settings: Settings)
    requires i < |cs| && grades != map[]
    ensures Accumulate(cs[..i + 1], grades, settings)
            == AddCourse(Accumulate(cs[..i], grades, settings), cs[i], QualityPoints(cs[i], grades, settings), settings)
    ensures DetailsOf(cs[..i + 1], grades, settings) == DetailsOf(cs[..i], grades, settings) + [Detail(cs[i], grades, settings)]
    ensures CourseWarningsOf(cs[..i + 1], settings) == CourseWarningsOf(cs[..i], settings) + CourseWarnings(cs[i], settings)
  {
    assert cs[..i + 1][..i] == cs[..i];
  }

  /** The main loop over the filtered courses: six running sums, the detail of
      each course and the warnings each course pushes. */
  method SumCourses(filtered: seq<ConvertedCourse>, grades: map<string, real>, settings: Settings)
    returns (totals: Totals, courseDetails: seq<CourseDetail>, warnings: seq<Warning>)
    requires grades != map[]
    ensures totals == Accumulate(filtered, grades, settings)
    ensures courseDetails == DetailsOf(filtered, grades, settings)
    ensures warnings == CourseWarningsOf(filtered, settings)
  {
    totals := Totals(0.0, 0.0, 0.0, 0.0, 0.0, 0.0);
    courseDetails := [];
    warnings := [];
    var i := 0;
    while i < |filtered|
      invariant 0 <= i <= |filtered|
      invariant totals == Accumulate(filtered[..i], grades, settings)
      invariant courseDetails == DetailsOf(filtered[..i], grades, settings)
      invariant warnings == CourseWarningsOf(filtered[..i], settings)
    {
      var entry := filtered[i];
      PrefixStep(filtered, i, grades, settings);
      var baseGradePoints, qualityPoints, rigorWarnings := ScoreCourse(entry, grades, settings);
      var conversionWarnings;
      totals, conversionWarnings := TallyCourse(totals, entry, qualityPoints, settings);
      warnings := warnings + rigorWarnings + conversionWarnings;
      courseDetails := courseDetails + [CourseDetail(entry, Round2(baseGradePoints), Round2(qualityPoints))];
      i := i + 1;
    }
    assert filtered[..i] == filtered;
  }

  /** The route's computation: convert the credits, drop the electives by
      policy, run the main loop, then the GPAs and the policy warnings. */
  method CalculateTransferGpa(courses: seq<Course>, grades: map<string, real>, settings: Settings, insightsReply: string)
    returns (result: TransferResult)
    requires grades != map[]
    ensures result == Calculate(courses, grades, settings, insightsReply)
  {
    var filtered := FilterCourses(ConvertAll(courses), settings);
    var totals, courseDetails, warnings := SumCourses(filtered, grades, settings);
    var institutionalGpa := Average(totals.institutionalPoints, totals.institutionalCredits);
    var transferGpa := Average(totals.transferPoints, totals.transferCredits);
    var cumulativeGpa := Average(totals.totalPoints, totals.totalCredits);
    warnings := warnings + PolicyWarnings(totals, settings);
    result := TransferResult(
      Reported(institutionalGpa), Reported(transferGpa), Reported(cumulativeGpa),
      Breakdown(totals.totalCredits, totals.transferCredits, totals.institutionalCredits,
                Round2(totals.totalPoints), Round2(totals.transferPoints), Round2(totals.institutionalPoints)),
      NonBlankLines(insightsReply),
      warnings,
      courseDetails);
  }

  // ---------------------------------------------------------------------------
  // Properties of the engine

  /** The core-subjects filter removes exactly the electives, keeping the order. */
  lemma FilterDropsOnlyElectives(cs: seq<ConvertedCourse>, settings: Settings)
    ensures Seqs.IsSubsequence(FilterCourses(cs, settings), cs)
    ensures forall c :: c in FilterCourses(cs, settings) <==> c in cs && !IsDropped(settings, c)
    ensures !settings.coreSubjectsOnly ==> FilterCourses(cs, settings) == cs
  {
    var keep := (c: ConvertedCourse) => !IsDropped(settings, c);
    Seqs.FilterIsSubsequence(cs, keep);
    if !settings.coreSubjectsOnly {
      Seqs.FilterKeepsAll(cs, keep);
    }
  }

  /** Every surviving course came from the input and is not a dropped elective. */
  lemma SurvivorsFromInput(courses: seq<Course>, settings: Settings)
    ensures forall c :: c in FilterCourses(ConvertAll(courses), settings) ==> !IsDropped(settings, c) && c.course in courses
  {
    var converted := ConvertAll(courses);
    forall c | c in FilterCourses(converted, settings) ensures !IsDropped(settings, c) && c.course in courses {
      var k :| 0 <= k < |converted| && converted[k] == c;
      assert courses[k] == c.course;
    }
  }

  /** The course details are the surviving courses, one each, in input order:
      no dropped elective appears, and every course in them came from the input. */
  lemma DetailsAreSurvivors(courses: seq<Course>, grades: map<string, real>, settings: Settings, insightsReply: string)
    requires grades != map[]
    ensures var r := Calculate(courses, grades, settings, insightsReply);
      var filtered := FilterCourses(ConvertAll(courses), settings);
      && |r.courseDetails| == |filtered|
      && (forall i :: 0 <= i < |filtered| ==> r.courseDetails[i].course == filtered[i])
      && (forall d :: d in r.courseDetails ==> !IsDropped(settings, d.course) && d.course.course in courses)
      && Seqs.IsSubsequence(filtered, ConvertAll(courses))
  {
    var filtered := FilterCourses(ConvertAll(courses), settings);
    FilterDropsOnlyElectives(ConvertAll(courses), settings);
    SurvivorsFromInput(courses, settings);
    var details := DetailsOf(filtered, grades, settings);
    assert forall d :: d in details ==> d.course in filtered;
  }

  /** The cumulative sums hold every institutional course and, by policy, every transfer course. */
  lemma {:induction false} TotalsPartition(cs: seq<ConvertedCourse>, grades: map<string, real>, settings: Settings)
    requires grades != map[]
    ensures var t := Accumulate(cs, grades, settings);
      && t.totalCredits == t.institutionalCredits + (if settings.includeTransferInGPA then t.transferCredits else 0.0)
      && t.totalPoints == t.institutionalPoints + (if settings.includeTransferInGPA then t.transferPoints else 0.0)
    decreases |cs|
  {
    if cs != [] {
      TotalsPartition(cs[..|cs| - 1], grades, settings);
    }
  }

  /** One course is scored alike whatever the `separateTransferGPA` setting says. */
  lemma CourseIgnoresSeparateFlag(c: ConvertedCourse, grades: map<string, real>, settings: Settings, separate: bool)
    requires grades != map[]
    ensures var other := settings.(separateTransferGPA := separate);
      && QualityPoints(c, grades, other) == QualityPoints(c, grades, settings)
      && Detail(c, grades, other) == Detail(c, grades, settings)
      && CourseWarnings(c, other) == CourseWarnings(c, settings)
  {
    var other := settings.(separateTransferGPA := separate);
    assert RigorMultiplier(c.course, other) == RigorMultiplier(c.course, settings);
    assert Bonus(c.course, other) == Bonus(c.course, settings);
    assert AdjustedGradePoints(c.course, grades, other) == AdjustedGradePoints(c.course, grades, settings);
  }

  /** The sums, warnings and details do not depend on the `separateTransferGPA` setting. */
  lemma {:induction false} AccumulateIgnoresSeparateFlag(cs: seq<ConvertedCourse>, grades: map<string, real>, settings: Settings, separate: bool)
    requires grades != map[]
    ensures Accumulate(cs, grades, settings.(separateTransferGPA := separate)) == Accumulate(cs, grades, settings)
    ensures CourseWarningsOf(cs, settings.(separateTransferGPA := separate)) == CourseWarningsOf(cs, settings)
    ensures DetailsOf(cs, grades, settings.(separateTransferGPA := separate)) == DetailsOf(cs, grades, settings)
    decreases |cs|
  {
    if cs != [] {
      AccumulateIgnoresSeparateFlag(cs[..|cs| - 1], grades, settings, separate);
      CourseIgnoresSeparateFlag(cs[|cs| - 1], grades, settings, separate);
    }
  }

  /** Whatever `separateTransferGPA` says, the engine computes the same result:
      the setting is accepted and has no effect. */
  lemma SeparateFlagHasNoEffect(courses: seq<Course>, grades: map<string, real>, settings: Settings, insightsReply: string, separate: bool)
    requires grades != map[]
    ensures Calculate(courses, grades, settings.(separateTransferGPA := separate), insightsReply)
            == Calculate(courses, grades, settings, insightsReply)
  {
    var other := settings.(separateTransferGPA := separate);
    Seqs.FilterAgreeing(ConvertAll(courses), (c: ConvertedCourse) => !IsDropped(other, c), (c: ConvertedCourse) => !IsDropped(settings, c));
    AccumulateIgnoresSeparateFlag(FilterCourses(ConvertAll(courses), settings), grades, settings, separate);
  }

  /** With transfer courses excluded, the cumulative GPA is the institutional one. */
  lemma ExcludedTransferLeavesInstitutional(courses: seq<Course>, grades: map<string, real>, settings: Settings, insightsReply: string)
    requires grades != map[] && !settings.includeTransferInGPA
    ensures var r := Calculate(courses, grades, settings, insightsReply);
      r.cumulative == r.institutional && r.breakdown.totalCredits == r.breakdown.institutionalCredits
  {
    TotalsPartition(FilterCourses(ConvertAll(courses), settings), grades, settings);
  }

  /** The course loop only ever pushes rigor and conversion warnings. */
  lemma {:induction false} CourseWarningsKinds(cs: seq<ConvertedCourse>, settings: Settings)
    ensures forall w :: w in CourseWarningsOf(cs, settings) ==> w.RigorAdjusted? || w.CreditsConverted?
    decreases |cs|
  {
    if cs != [] {
      CourseWarningsKinds(cs[..|cs| - 1], settings);
    }
  }

  /** Appending the policy warnings to course warnings: each policy warning is
      present exactly when its condition holds, and none precedes a course warning. */
  lemma PolicyWarningsAppended(cw: seq<Warning>, t: Totals, settings: Settings)
    requires forall w :: w in cw ==> w.RigorAdjusted? || w.CreditsConverted?
    ensures var ws := cw + PolicyWarnings(t, settings);
      && (TransferExcluded in ws <==> t.transferCredits > 0.0 && !settings.includeTransferInGPA)
      && (TransferExceedsInstitutional in ws <==> t.transferCredits > t.institutionalCredits * 2.0)
      && (forall i :: 0 <= i < |ws| && (ws[i].TransferExcluded? || ws[i].TransferExceedsInstitutional?) ==> i >= |cw|)
  {
    var pw := PolicyWarnings(t, settings);
    var ws := cw + pw;
    assert forall w :: w in ws <==> w in cw || w in pw;
    assert forall i :: 0 <= i < |cw| ==> ws[i] == cw[i] && ws[i] in cw;
  }

  /** In the route's result, the two policy warnings come after every course
      warning, each exactly when its condition holds. */
  lemma PolicyWarningsIff(courses: seq<Course>, grades: map<string, real>, settings: Settings, insightsReply: string)
    requires grades != map[]
    ensures var r := Calculate(courses, grades, settings, insightsReply);
      && (TransferExcluded in r.warnings <==> r.breakdown.transferCredits > 0.0 && !settings.includeTransferInGPA)
      && (TransferExceedsInstitutional in r.warnings <==> r.breakdown.transferCredits > r.breakdown.institutionalCredits * 2.0)
      && (forall i :: 0 <= i < |r.warnings| && (r.warnings[i].TransferExcluded? || r.warnings[i].TransferExceedsInstitutional?) ==>
            i >= |CourseWarningsOf(FilterCourses(ConvertAll(courses), settings), settings)|)
  {
    var filtered := FilterCourses(ConvertAll(courses), settings);
    CourseWarningsKinds(filtered, settings);
    PolicyWarningsAppended(CourseWarningsOf(filtered, settings), Accumulate(filtered, grades, settings), settings);
  }

  /** A transfer course without a credit system gets a conversion warning
      although its credits are taken as they are. */
  lemma UnlabelledTransferIsWarned(c: Course, settings: Settings)
    requires c.isTransfer && c.creditSystem.None?
    ensures var cc := ConvertedCourse(c, ConvertCredits(c));
      cc.convertedCredits == c.credits && CreditsConverted(c.name, None, c.originalCredits, c.credits) in CourseWarnings(cc, settings)
  {
  }

  /** The ratio warning fires for any transfer credit when there is no institutional credit. */
  lemma RatioWarningWithoutInstitutional(t: Totals, settings: Settings)
    requires t.institutionalCredits == 0.0 && t.transferCredits > 0.0
    ensures TransferExceedsInstitutional in PolicyWarnings(t, settings)
  {
  }

  /** An institutional course is scored without its transfer fields: they change nothing. */
  lemma InstitutionalIgnoresTransferFields(c: Course, grades: map<string, real>, settings: Settings,
                                           originalCredits: Option<real>, creditSystem: Option<string>, rigorRating: Option<real>)
    requires grades != map[] && !c.isTransfer
    ensures var d := c.(originalCredits := originalCredits, creditSystem := creditSystem, rigorRating := rigorRating);
      && ConvertCredits(d) == ConvertCredits(c) == c.credits
      && AdjustedGradePoints(d, grades, settings) == AdjustedGradePoints(c, grades, settings)
      && CourseWarnings(ConvertedCourse(d, ConvertCredits(d)), settings) == []
  {
  }

  /** A rating of 3 with an adjustment of 1 leaves the points alone and warns nothing. */
  lemma NeutralRigor(c: Course, settings: Settings, points: real)
    requires c.rigorRating == Some(3.0) && settings.rigorAdjustment == 1.0
    ensures ApplyRigor(points, c, settings) == points
    ensures RigorWarnings(c, settings) == []
  {
  }

  // Bounds on the GPAs

  /** The inputs of a sensible request: no negative points, bonuses, ratings or credits. */
  predicate NonNegativeInputs(courses: seq<Course>, grades: map<string, real>, settings: Settings) {
    && (forall g :: g in grades ==> grades[g] >= 0.0)
    && settings.honorsBonusPoints >= 0.0 && settings.apBonusPoints >= 0.0 && settings.rigorAdjustment >= 0.0
    && forall i :: 0 <= i < |courses| ==> NonNegativeCourse(courses[i])
  }

  predicate NonNegativeCourse(c: Course) {
    && c.credits >= 0.0
    && (c.originalCredits.Some? ==> c.originalCredits.value >= 0.0)
    && (c.rigorRating.Some? ==> c.rigorRating.value >= 0.0)
  }

  lemma ConvertCreditsNonNegative(c: Course)
    requires NonNegativeCourse(c)
    ensures ConvertCredits(c) >= 0.0
  {
    if HasCreditSystem(c) && c.creditSystem.value in {"quarter", "trimester"} {
      var x := if c.creditSystem.value == "quarter" then c.originalCredits.value * 0.67 else c.originalCredits.value * 0.75;
      assert RoundHalfUp(x * 10.0) >= 0;
    }
  }

  lemma AdjustedWithinCap(c: Course, grades: map<string, real>, settings: Settings)
    requires grades != map[] && NonNegativeCourse(c)
    requires forall g :: g in grades ==> grades[g] >= 0.0
    requires settings.honorsBonusPoints >= 0.0 && settings.apBonusPoints >= 0.0 && settings.rigorAdjustment >= 0.0
    ensures 0.0 <= AdjustedGradePoints(c, grades, settings) <= MaxPoint(grades) + 2.0
  {
    var base := GradePoints(grades, c.grade) + Bonus(c, settings);
    assert base >= 0.0;
    var m := RigorMultiplier(c, settings);
    if m.Some? {
      assert m.value >= 0.0;
      ProductNonNegative(base, m.value);
    }
    var g :| g in grades;
    assert MaxPoint(grades) >= 0.0;
  }

  lemma ProductNonNegative(a: real, b: real)
    requires a >= 0.0 && b >= 0.0
    ensures a * b >= 0.0
  {
  }

  /** `0 <= a <= cap` and `b >= 0` give `0 <= a * b <= cap * b`. */
  lemma ScaledWithin(a: real, b: real, cap: real)
    requires 0.0 <= a <= cap && b >= 0.0
    ensures 0.0 <= a * b <= cap * b
  {
    ProductNonNegative(a, b);
    ProductNonNegative(cap - a, b);
  }

  /** A course has no negative credit and is scored between 0 and `cap`. */
  ghost predicate CourseWithinCap(c: ConvertedCourse, grades: map<string, real>, settings: Settings, cap: real)
    requires grades != map[]
  {
    c.convertedCredits >= 0.0 && 0.0 <= AdjustedGradePoints(c.course, grades, settings) <= cap
  }

  /** Every bucket holds no negative credit and at most `cap` points per credit. */
  predicate TotalsWithinCap(t: Totals, cap: real) {
    && 0.0 <= t.institutionalCredits && 0.0 <= t.institutionalPoints <= cap * t.institutionalCredits
    && 0.0 <= t.transferCredits && 0.0 <= t.transferPoints <= cap * t.transferCredits
    && 0.0 <= t.totalCredits && 0.0 <= t.totalPoints <= cap * t.totalCredits
  }

  lemma AddCourseWithinCap(t: Totals, c: ConvertedCourse, q: real, settings: Settings, cap: real)
    requires TotalsWithinCap(t, cap) && c.convertedCredits >= 0.0 && 0.0 <= q <= cap * c.convertedCredits
    ensures TotalsWithinCap(AddCourse(t, c, q, settings), cap)
  {
  }

  lemma AddScoredWithinCap(t: Totals, c: ConvertedCourse, grades: map<string, real>, settings: Settings, cap: real)
    requires grades != map[] && TotalsWithinCap(t, cap) && CourseWithinCap(c, grades, settings, cap)
    ensures TotalsWithinCap(AddCourse(t, c, QualityPoints(c, grades, settings), settings), cap)
  {
    QualityWithinCap(c, grades, settings, cap);
    AddCourseWithinCap(t, c, QualityPoints(c, grades, settings), settings, cap);
  }

  lemma QualityWithinCap(c: ConvertedCourse, grades: map<string, real>, settings: Settings, cap: real)
    requires grades != map[] && CourseWithinCap(c, grades, settings, cap)
    ensures 0.0 <= QualityPoints(c, grades, settings) <= cap * c.convertedCredits
  {
    ProductWithin(QualityPoints(c, grades, settings), AdjustedGradePoints(c.course, grades, settings), c.convertedCredits, cap);
  }

  /** A product `q` of a value in [0, cap] and a non-negative factor `k` lies in [0, cap * k]. */
  lemma ProductWithin(q: real, a: real, k: real, cap: real)
    requires q == a * k && 0.0 <= a <= cap && k >= 0.0
    ensures 0.0 <= q <= cap * k
  {
    ScaledWithin(a, k, cap);
  }

  lemma {:induction false} AccumulateWithinCap(cs: seq<ConvertedCourse>, grades: map<string, real>, settings: Settings, cap: real)
    requires grades != map[]
    requires forall i :: 0 <= i < |cs| ==> CourseWithinCap(cs[i], grades, settings, cap)
    ensures TotalsWithinCap(Accumulate(cs, grades, settings), cap)
    decreases |cs|
  {
    if cs != [] {
      var init := cs[..|cs| - 1];
      var last := cs[|cs| - 1];
      assert forall i :: 0 <= i < |init| ==> init[i] == cs[i];
      AccumulateWithinCap(init, grades, settings, cap);
      AddScoredWithinCap(Accumulate(init, grades, settings), last, grades, settings, cap);
    }
  }

  /** A bucket average is between 0 and `cap` when its points are. */
  lemma BucketGpaWithin(points: real, credits: real, cap: real)
    requires 0.0 <= points <= cap * credits
    ensures var r := BucketGpa(points, credits); r.Some? ==> 0.0 <= r.value <= Round2(cap)
  {
    if credits > 0.0 {
      var avg := points / credits;
      assert avg * credits == points;
      assert 0.0 <= avg;
      assert avg <= cap;
      Round2OfCents(0.0);
      Round2Between(avg, 0.0, cap);
    }
  }

  lemma TotalsGpaWithin(t: Totals, cap: real)
    requires TotalsWithinCap(t, cap)
    ensures var r := BucketGpa(t.institutionalPoints, t.institutionalCredits); r.Some? ==> 0.0 <= r.value <= Round2(cap)
    ensures var r := BucketGpa(t.transferPoints, t.transferCredits); r.Some? ==> 0.0 <= r.value <= Round2(cap)
    ensures var r := BucketGpa(t.totalPoints, t.totalCredits); r.Some? ==> 0.0 <= r.value <= Round2(cap)
  {
    BucketGpaWithin(t.institutionalPoints, t.institutionalCredits, cap);
    BucketGpaWithin(t.transferPoints, t.transferCredits, cap);
    BucketGpaWithin(t.totalPoints, t.totalCredits, cap);
  }

  /** With no negative input, every reported GPA lies between 0 and the scale
      maximum plus two, rounded to cents. */
  lemma GpaWithinScale(courses: seq<Course>, grades: map<string, real>, settings: Settings, insightsReply: string)
    requires grades != map[] && NonNegativeInputs(courses, grades, settings)
    ensures var r := Calculate(courses, grades, settings, insightsReply);
      && (r.institutional.Some? ==> 0.0 <= r.institutional.value <= Round2(MaxPoint(grades) + 2.0))
      && (r.transfer.Some? ==> 0.0 <= r.transfer.value <= Round2(MaxPoint(grades) + 2.0))
      && (r.cumulative.Some? ==> 0.0 <= r.cumulative.value <= Round2(MaxPoint(grades) + 2.0))
  {
    var cap := MaxPoint(grades) + 2.0;
    var converted := ConvertAll(courses);
    var filtered := FilterCourses(converted, settings);
    forall k | 0 <= k < |converted| ensures CourseWithinCap(converted[k], grades, settings, cap) {
      ConvertCreditsNonNegative(courses[k]);
      AdjustedWithinCap(courses[k], grades, settings);
    }
    forall i | 0 <= i < |filtered| ensures CourseWithinCap(filtered[i], grades, settings, cap) {
      assert filtered[i] in converted;
    }
    AccumulateWithinCap(filtered, grades, settings, cap);
    TotalsGpaWithin(Accumulate(filtered, grades, settings), cap);
  }

  // Worked examples

  /** Four quarter credits count as 2.7 semester credits; four trimester credits as 3.0. */
  lemma CreditConversionExamples(c: Course)
    requires c.isTransfer && c.originalCredits == Some(4.0)
    ensures c.creditSystem == Some("quarter") ==> ConvertCredits(c) == 2.7
    ensures c.creditSystem == Some("trimester") ==> ConvertCredits(c) == 3.0
  {
    assert (4.0 * 0.67 * 10.0 + 0.5).Floor == 27;
    assert (4.0 * 0.75 * 10.0 + 0.5).Floor == 30;
  }

  /** The largest value of a one-entry scale is that entry. */
  lemma SingleGradeMax(k: string, v: real)
    ensures var grades := map[k := v]; k in grades && MaxPoint(grades) == v
  {
    var grades := map[k := v];
    assert k in grades;
    var m := MaxPoint(grades);
    var g :| g in grades && grades[g] == m;
    assert g == k;
  }

  /** The route's result for a single course after the filter. */
  lemma {:induction false} SingleCourse(c: ConvertedCourse, grades: map<string, real>, settings: Settings)
    requires grades != map[]
    ensures Accumulate([c], grades, settings) == AddCourse(Totals(0.0, 0.0, 0.0, 0.0, 0.0, 0.0), c, QualityPoints(c, grades, settings), settings)
    ensures DetailsOf([c], grades, settings) == [Detail(c, grades, settings)]
    ensures CourseWarningsOf([c], settings) == CourseWarnings(c, settings)
  {
    assert [c][..0] == [];
  }

  /** The course list survives conversion and filtering unchanged when no course needs either. */
  lemma {:induction false} NothingConvertedOrDropped(courses: seq<Course>, settings: Settings)
    requires forall i :: 0 <= i < |courses| ==> !HasCreditSystem(courses[i]) && courses[i].courseType.None?
    ensures FilterCourses(ConvertAll(courses), settings) == seq(|courses|, i requires 0 <= i < |courses| => ConvertedCourse(courses[i], courses[i].credits))
  {
    Seqs.FilterKeepsAll(ConvertAll(courses), (c: ConvertedCourse) => !IsDropped(settings, c));
  }

  /** The courses of the worked examples below. */
  const Calculus := PlainCourse("c1", "Calculus", 3.0, "A", "Fall 2024")
  const QuarterPhysics := Course("t1", "Physics", 4.0, "B", "Fall 2023", true, Some(4.0), Some("quarter"), None, None, Some(3.0))
  const UngradedArt := PlainCourse("c2", "Art", 3.0, "Z", "Fall 2024")

  /** One institutional 3-credit "A" on a scale where A is 4.0 gives 4.00 institutional
      and cumulative GPAs, no transfer GPA and 3 total credits. */
  lemma InstitutionalExample(settings: Settings)
    ensures var grades := map["A" := 4.0];
      && "A" in grades
      && var r := Calculate([Calculus], grades, settings, "");
      && r.institutional == Some(4.0) && r.cumulative == Some(4.0) && r.transfer.None?
      && r.breakdown.totalCredits == 3.0 && r.warnings == []
  {
    var grades := map["A" := 4.0];
    SingleGradeMax("A", 4.0);
    InstitutionalExampleTotals(settings);
    Round2OfCents(4.0);
    assert BucketGpa(12.0, 3.0) == Some(4.0);
  }

  /** The filtered list, totals and course warnings of the institutional example. */
  lemma InstitutionalExampleTotals(settings: Settings)
    ensures var grades := map["A" := 4.0];
      var cc := ConvertedCourse(Calculus, 3.0);
      && grades != map[]
      && FilterCourses(ConvertAll([Calculus]), settings) == [cc]
      && Accumulate([cc], grades, settings) == Totals(12.0, 3.0, 0.0, 0.0, 12.0, 3.0)
      && CourseWarningsOf([cc], settings) == []
  {
    var course := Calculus;
    var grades := map["A" := 4.0];
    SingleGradeMax("A", 4.0);
    var cc := ConvertedCourse(course, 3.0);
    NothingConvertedOrDropped([course], settings);
    assert FilterCourses(ConvertAll([course]), settings) == [cc];
    assert AdjustedGradePoints(course, grades, settings) == 4.0;
    SingleCourse(cc, grades, settings);
  }

  /** One transfer course of four quarter credits with grade "B" (3.0) and a
      neutral rating of 3: 2.7 credits, 3.0 points, 8.1 quality points, and
      transfer and cumulative GPAs of 3.00. */
  lemma TransferExample(settings: Settings)
    requires settings.includeTransferInGPA && settings.rigorAdjustment == 1.0
    ensures var grades := map["B" := 3.0];
      && "B" in grades
      && var r := Calculate([QuarterPhysics], grades, settings, "");
      && r.courseDetails == [CourseDetail(ConvertedCourse(QuarterPhysics, 2.7), 3.0, 8.1)]
      && r.transfer == Some(3.0) && r.cumulative == Some(3.0) && r.institutional.None?
  {
    var course := QuarterPhysics;
    var grades := map["B" := 3.0];
    SingleGradeMax("B", 3.0);
    CreditConversionExamples(course);
    var cc := ConvertedCourse(course, 2.7);
    assert ConvertAll([course]) == [cc];
    Seqs.FilterKeepsAll([cc], (c: ConvertedCourse) => !IsDropped(settings, c));
    assert FilterCourses(ConvertAll([course]), settings) == [cc];
    NeutralRigor(course, settings, 3.0);
    assert AdjustedGradePoints(course, grades, settings) == 3.0;
    assert QualityPoints(cc, grades, settings) == 8.1;
    SingleCourse(cc, grades, settings);
    assert Accumulate([cc], grades, settings) == Totals(0.0, 0.0, 8.1, 2.7, 8.1, 2.7);
    Round2OfCents(3.0);
    Round2OfCents(8.1);
    assert Detail(cc, grades, settings) == CourseDetail(cc, 3.0, 8.1);
    assert BucketGpa(8.1, 2.7) == Some(3.0);
  }

  /** A grade missing from the scale scores 0 yet its credits still count,
      lowering the average instead of dropping the course. */
  lemma UnknownGradeLowersAverage(settings: Settings)
    ensures var grades := map["A" := 4.0];
      && "A" in grades
      && var r := Calculate([Calculus, UngradedArt], grades, settings, "");
      && r.institutional == Some(2.0) && r.breakdown.institutionalCredits == 6.0
  {
    var grades := map["A" := 4.0];
    SingleGradeMax("A", 4.0);
    UnknownGradeTotals(settings);
    Round2OfCents(2.0);
    assert BucketGpa(12.0, 6.0) == Some(2.0);
  }

  /** The filtered list and totals of that example: 12 points over 6 credits. */
  lemma UnknownGradeTotals(settings: Settings)
    ensures var grades := map["A" := 4.0];
      var a, b := ConvertedCourse(Calculus, 3.0), ConvertedCourse(UngradedArt, 3.0);
      && grades != map[]
      && FilterCourses(ConvertAll([Calculus, UngradedArt]), settings) == [a, b]
      && Accumulate([a, b], grades, settings) == Totals(12.0, 6.0, 0.0, 0.0, 12.0, 6.0)
  {
    var known, unknown := Calculus, UngradedArt;
    var grades := map["A" := 4.0];
    SingleGradeMax("A", 4.0);
    var a := ConvertedCourse(known, 3.0);
    var b := ConvertedCourse(unknown, 3.0);
    NothingConvertedOrDropped([known, unknown], settings);
    assert FilterCourses(ConvertAll([known, unknown]), settings) == [a, b];
    assert QualityPoints(a, grades, settings) == 12.0 by {
      assert AdjustedGradePoints(known, grades, settings) == 4.0;
    }
    assert QualityPoints(b, grades, settings) == 0.0 by {
      assert AdjustedGradePoints(unknown, grades, settings) == 0.0;
    }
    TwoInstitutional(a, b, grades, settings);
  }

  /** Two institutional courses add their points and credits to the institutional and total sums. */
  lemma {:induction false} TwoInstitutional(a: ConvertedCourse, b: ConvertedCourse, grades: map<string, real>, settings: Settings)
    requires grades != map[] && !a.course.isTransfer && !b.course.isTransfer
    ensures var qa, qb := QualityPoints(a, grades, settings), QualityPoints(b, grades, settings);
      var credits := a.convertedCredits + b.convertedCredits;
      Accumulate([a, b], grades, settings) == Totals(qa + qb, credits, 0.0, 0.0, qa + qb, credits)
  {
    SingleCourse(a, grades, settings);
    assert [a, b][..1] == [a];
  }
}
