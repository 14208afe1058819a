/** The course record the calculator page edits and sends to the GPA routes,
    and the grade lookup every route shares. */
module Courses {
  import opened Wrappers

  /** A course row. The optional fields are absent for an ordinary course;
      `isTransfer` absent and `false` behave alike and are both `false` here. */
  datatype Course = Course(
    id: string,
    name: string,
    credits: real,
    grade: string,
    semester: string,
    isTransfer: bool,
    originalCredits: Option<real>,
    creditSystem: Option<string>,
    courseType: Option<string>,
    institutionName: Option<string>,
    rigorRating: Option<real>)

  /** A course with only the five always-present fields set. */
  function PlainCourse(id: string, name: string, credits: real, grade: string, semester: string): Course {
    Course(id, name, credits, grade, semester, false, None, None, None, None, None)
  }

  /** `grades[grade] || 0`: the scale's points for a grade, 0 for a grade the scale lacks. */
  function GradePoints(grades: map<string, real>, grade: string): real {
    if grade in grades then grades[grade] else 0.0
  }

  /** The sum of the credits of a course list, `courses.reduce((sum, c) => sum + c.credits, 0)`. */
  function TotalCredits(cs: seq<Course>): real
    decreases |cs|
  {
    if cs == [] then 0.0 else TotalCredits(cs[..|cs| - 1]) + cs[|cs| - 1].credits
  }

  /** Every credit count is non-negative. */
  predicate NonNegativeCredits(cs: seq<Course>) {
    forall i :: 0 <= i < |cs| ==> cs[i].credits >= 0.0
  }
}
