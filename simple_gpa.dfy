/** The simple GPA route: a credit-weighted average on the caller's grading
    scale, gated by a validator's reply and followed by an insights reply.
    Both replies come from a language model and are plain inputs here. */
module SimpleGpa {
  import opened Numbers
  import opened Text
  import opened Courses

  /** A course with the points its grade earned (`{...course, gradePoints, qualityPoints}`). */
  datatype CourseDetail = CourseDetail(course: Course, gradePoints: real, qualityPoints: real)

  /** The route's JSON answer. */
  datatype GpaResponse =
    | Rejected(errors: seq<string>)
    | Computed(gpa: real, totalCredits: real, totalQualityPoints: real, courseDetails: seq<CourseDetail>, insights: seq<string>)

  /** The detail row of one course; its quality points are not rounded. */
  function Detail(c: Course, grades: map<string, real>): CourseDetail {
    var gradePoints := GradePoints(grades, c.grade);
    CourseDetail(c, gradePoints, gradePoints * c.credits)
  }

  /** One detail row per course, in order. */
  function DetailsOf(cs: seq<Course>, grades: map<string, real>): (r: seq<CourseDetail>)
    ensures |r| == |cs|
    ensures forall i :: 0 <= i < |cs| ==> r[i] == Detail(cs[i], grades)
    decreases |cs|
  {
    if cs == [] then [] else DetailsOf(cs[..|cs| - 1], grades) + [Detail(cs[|cs| - 1], grades)]
  }

  /** The sum of the quality points. */
  function TotalPoints(cs: seq<Course>, grades: map<string, real>): real
    decreases |cs|
  {
    if cs == [] then 0.0 else TotalPoints(cs[..|cs| - 1], grades) + Detail(cs[|cs| - 1], grades).qualityPoints
  }

  /** `Math.round((credits > 0 ? points / credits : 0) * 100) / 100`. */
  function Gpa(points: real, credits: real): real {
    Round2(if credits > 0.0 then points / credits else 0.0)
  }

  /** The route's answer to a course list, a scale and the two replies. */
  function Respond(courses: seq<Course>, grades: map<string, real>, validationReply: string, insightsReply: string): GpaResponse {
    if !Contains(validationReply, "VALID") then
      Rejected(NonBlankLines(validationReply))
    else
      var points, credits := TotalPoints(courses, grades), TotalCredits(courses);
      Computed(Gpa(points, credits), credits, Round2(points), DetailsOf(courses, grades), NonBlankLines(insightsReply))
  }

  lemma PrefixStep(cs: seq<Course>, i: nat, grades: map<string, real>)
    requires i < |cs|
    ensures TotalPoints(cs[..i + 1], grades) == TotalPoints(cs[..i], grades) + Detail(cs[i], grades).qualityPoints
    ensures TotalCredits(cs[..i + 1]) == TotalCredits(cs[..i]) + cs[i].credits
    ensures DetailsOf(cs[..i + 1], grades) == DetailsOf(cs[..i], grades) + [Detail(cs[i], grades)]
  {
    assert cs[..i + 1][..i] == cs[..i];
  }

  /** The accumulation loop: running totals and one detail row per course. */
  method AccumulateCourses(courses: seq<Course>, grades: map<string, real>)
    returns (totalPoints: real, totalCredits: real, courseDetails: seq<CourseDetail>)
    ensures totalPoints == TotalPoints(courses, grades)
    ensures totalCredits == TotalCredits(courses)
    ensures courseDetails == DetailsOf(courses, grades)
  {
    totalPoints, totalCredits := 0.0, 0.0;
    courseDetails := [];
    for i := 0 to |courses|
      invariant totalPoints == TotalPoints(courses[..i], grades)
      invariant totalCredits == TotalCredits(courses[..i])
      invariant courseDetails == DetailsOf(courses[..i], grades)
    {
      var course := courses[i];
      var gradePoints := GradePoints(grades, course.grade);
      var points := gradePoints * course.credits;
      totalPoints := totalPoints + points;
      totalCredits := totalCredits + course.credits;
      courseDetails := courseDetails + [CourseDetail(course, gradePoints, points)];
      PrefixStep(courses, i, grades);
    }
    assert courses[..|courses|] == courses;
  }

  /** The route: the validator's reply gates the calculation. */
  method CalculateGpa(courses: seq<Course>, grades: map<string, real>, validationReply: string, insightsReply: string)
    returns (r: GpaResponse)
    ensures r == Respond(courses, grades, validationReply, insightsReply)
  {
    if !Contains(validationReply, "VALID") {
      return Rejected(NonBlankLines(validationReply));
    }
    var totalPoints, totalCredits, courseDetails := AccumulateCourses(courses, grades);
    var gpa := if totalCredits > 0.0 then totalPoints / totalCredits else 0.0;
    var roundedGpa := Round2(gpa);
    r := Computed(roundedGpa, totalCredits, Round2(totalPoints), courseDetails, NonBlankLines(insightsReply));
  }

  // ---------------------------------------------------------------------------
  // Properties

  /** The calculation goes ahead exactly when "VALID" occurs somewhere in the
      validator's reply; otherwise the errors are its non-blank lines. */
  lemma GateIff(courses: seq<Course>, grades: map<string, real>, validationReply: string, insightsReply: string)
    ensures Respond(courses, grades, validationReply, insightsReply).Computed?
      <==> exists i :: OccursAt(validationReply, "VALID", i)
    ensures Respond(courses, grades, validationReply, insightsReply).Rejected? ==>
      Respond(courses, grades, validationReply, insightsReply).errors == NonBlankLines(validationReply)
    ensures Respond(courses, grades, validationReply, insightsReply).Computed? ==>
      Respond(courses, grades, validationReply, insightsReply).insights == NonBlankLines(insightsReply)
  {
  }

  /** The gate is a substring test, so a reply saying "INVALID" lets the calculation through. */
  lemma InvalidReplyPasses(courses: seq<Course>, grades: map<string, real>, insightsReply: string)
    ensures Respond(courses, grades, "INVALID", insightsReply).Computed?
  {
    assert OccursAt("INVALID", "VALID", 2);
  }

  /** With no credits the GPA is 0 (not null). */
  lemma NoCreditsGivesZero(points: real, credits: real)
    requires credits <= 0.0
    ensures Gpa(points, credits) == 0.0
  {
    Round2OfCents(0.0);
  }

  /** Every scale value lies in `[0, hi]`. */
  predicate ScaleWithin(grades: map<string, real>, hi: real) {
    forall g :: g in grades ==> 0.0 <= grades[g] <= hi
  }

  lemma {:induction false} PointsWithin(cs: seq<Course>, grades: map<string, real>, hi: real)
    requires NonNegativeCredits(cs) && ScaleWithin(grades, hi) && 0.0 <= hi
    ensures 0.0 <= TotalCredits(cs)
    ensures 0.0 <= TotalPoints(cs, grades) <= hi * TotalCredits(cs)
    decreases |cs|
  {
    if cs != [] {
      var init, c := cs[..|cs| - 1], cs[|cs| - 1];
      assert NonNegativeCredits(init) by {
        forall i | 0 <= i < |init| ensures init[i].credits >= 0.0 {
          assert init[i] == cs[i];
        }
      }
      PointsWithin(init, grades, hi);
      var g := GradePoints(grades, c.grade);
      var p0, t0 := TotalPoints(init, grades), TotalCredits(init);
      assert TotalPoints(cs, grades) == p0 + g * c.credits;
      assert TotalCredits(cs) == t0 + c.credits;
      assert 0.0 <= g <= hi;
      AddWithin(p0, t0, g, c.credits, hi);
    }
  }

  /** Adding one course of `credits` whose points per credit `g` lie in [0, hi]
      keeps the points within `hi` per credit. */
  lemma AddWithin(p0: real, t0: real, g: real, credits: real, hi: real)
    requires 0.0 <= p0 <= hi * t0 && 0.0 <= credits && 0.0 <= g <= hi
    ensures 0.0 <= p0 + g * credits <= hi * (t0 + credits)
  {
    assert g * credits <= hi * credits;
  }

  /** An average of points that lie between 0 and `hi` per credit lies in [0, hi]. */
  lemma AverageWithin(points: real, credits: real, hi: real)
    requires 0.0 < credits && 0.0 <= points <= hi * credits
    ensures 0.0 <= points / credits <= hi
  {
    var a := points / credits;
    assert a * credits == points;
    if a > hi {
      assert (a - hi) * credits > 0.0;
    }
  }

  /** With non-negative credits and a scale whose values lie in [0, hi], the
      GPA lies between 0 and `hi` rounded to cents. */
  lemma GpaWithinScale(courses: seq<Course>, grades: map<string, real>, hi: real)
    requires NonNegativeCredits(courses) && ScaleWithin(grades, hi) && 0.0 <= hi
    ensures var g := Gpa(TotalPoints(courses, grades), TotalCredits(courses));
      0.0 <= g <= Round2(hi)
  {
    var points, credits := TotalPoints(courses, grades), TotalCredits(courses);
    PointsWithin(courses, grades, hi);
    var avg := if credits > 0.0 then points / credits else 0.0;
    if credits > 0.0 {
      AverageWithin(points, credits, hi);
    }
    Round2OfCents(0.0);
    Round2Between(avg, 0.0, hi);
  }

  /** Courses that all earn the same grade points `v` average to exactly `v`. */
  lemma {:induction false} UniformPoints(cs: seq<Course>, grades: map<string, real>, v: real)
    requires forall i :: 0 <= i < |cs| ==> GradePoints(grades, cs[i].grade) == v
    ensures TotalPoints(cs, grades) == v * TotalCredits(cs)
    decreases |cs|
  {
    if cs != [] {
      UniformPoints(cs[..|cs| - 1], grades, v);
      assert v * TotalCredits(cs[..|cs| - 1]) + v * cs[|cs| - 1].credits == v * TotalCredits(cs);
    }
  }

  /** A transcript of one grade with some credits has exactly that grade's points, rounded, as its GPA. */
  lemma UniformGrade(cs: seq<Course>, grades: map<string, real>, v: real)
    requires forall i :: 0 <= i < |cs| ==> GradePoints(grades, cs[i].grade) == v
    requires TotalCredits(cs) > 0.0
    ensures Gpa(TotalPoints(cs, grades), TotalCredits(cs)) == Round2(v)
  {
    UniformPoints(cs, grades, v);
    var p, c := TotalPoints(cs, grades), TotalCredits(cs);
    assert p / c == v by {
      assert p == v * c;
      assert v * c / c == v;
    }
  }
}
