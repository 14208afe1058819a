/** The reports page: the record table filtered by a search term and two
    selections, and the summary statistics over all records. */
module Reports {
  import opened Wrappers
  import opened Numbers
  import opened Text
  import Seqs

  datatype Status = Completed | Pending | Reviewed

  datatype StudentRecord = StudentRecord(
    id: string,
    name: string,
    gpa: real,
    scale: string,
    totalCredits: real,
    semester: string,
    calculatedDate: string,
    status: Status)

  /** The three controls of the table. */
  datatype Criteria = Criteria(searchTerm: string, filterScale: string, filterSemester: string)

  /** The case-insensitive search, and each selection matching anything when it is "all". */
  predicate Matches(c: Criteria, r: StudentRecord) {
    && Contains(ToLower(r.name), ToLower(c.searchTerm))
    && (c.filterScale == "all" || r.scale == c.filterScale)
    && (c.filterSemester == "all" || r.semester == c.filterSemester)
  }

  /** `filteredRecords`: the matching records, in their order. */
  function FilterRecords(rs: seq<StudentRecord>, c: Criteria): (r: seq<StudentRecord>)
    ensures |r| <= |rs|
    ensures Seqs.IsSubsequence(r, rs)
    ensures forall i :: 0 <= i < |r| ==> Matches(c, r[i])
    ensures forall x :: x in r <==> x in rs && Matches(c, x)
    ensures forall x :: multiset(r)[x] == if Matches(c, x) then multiset(rs)[x] else 0
  {
    Seqs.FilterIsSubsequence(rs, x => Matches(c, x));
    Seqs.FilterMultiset(rs, x => Matches(c, x));
    Seqs.Filter(rs, x => Matches(c, x))
  }

  /** An empty search with both selections on "all" shows every record. */
  lemma ShowAllKeepsEverything(rs: seq<StudentRecord>)
    ensures FilterRecords(rs, Criteria("", "all", "all")) == rs
  {
    var c := Criteria("", "all", "all");
    forall i | 0 <= i < |rs| ensures Matches(c, rs[i]) {
      assert StartsWith(ToLower(rs[i].name), "");
    }
    Seqs.FilterKeepsAll(rs, x => Matches(c, x));
  }

  /** A record whose name contains the search term (in any ASCII case) and
      whose scale and semester are the ones selected is shown. */
  lemma MatchingRecordShown(rs: seq<StudentRecord>, c: Criteria, k: nat, at: nat)
    requires k < |rs|
    requires OccursAt(ToLower(rs[k].name), ToLower(c.searchTerm), at)
    requires c.filterScale in {"all", rs[k].scale} && c.filterSemester in {"all", rs[k].semester}
    ensures rs[k] in FilterRecords(rs, c)
  {
  }

  // ---------------------------------------------------------------------------
  // Statistics

  datatype Stats = Stats(totalStudents: nat, averageGPA: Option<real>, completedCalculations: nat, pendingReview: nat)

  function SumGpa(rs: seq<StudentRecord>): real
    decreases |rs|
  {
    if rs == [] then 0.0 else SumGpa(rs[..|rs| - 1]) + rs[|rs| - 1].gpa
  }

  predicate IsCompleted(r: StudentRecord) { r.status == Completed }

  predicate IsPending(r: StudentRecord) { r.status == Pending }

  /** `stats`: the average is the mean GPA rounded to cents, and undefined
      (`NaN` in the page) for an empty list. */
  function StatsOf(rs: seq<StudentRecord>): Stats {
    Stats(
      |rs|,
      if rs == [] then None else Some(Round2(SumGpa(rs) / |rs| as real)),
      Seqs.Count(rs, IsCompleted),
      Seqs.Count(rs, IsPending))
  }

  /** The completed and the pending counts together never exceed the number of records. */
  lemma CountsWithinTotal(rs: seq<StudentRecord>)
    ensures StatsOf(rs).completedCalculations + StatsOf(rs).pendingReview <= StatsOf(rs).totalStudents
  {
    Seqs.CountDisjoint(rs, IsCompleted, IsPending);
  }

  /** With every GPA between two values of at most two decimals, so is the average. */
  lemma AverageWithin(rs: seq<StudentRecord>, lo: real, hi: real)
    requires rs != [] && IsCents(lo) && IsCents(hi)
    requires forall i :: 0 <= i < |rs| ==> lo <= rs[i].gpa <= hi
    ensures StatsOf(rs).averageGPA.Some?
    ensures lo <= StatsOf(rs).averageGPA.value <= hi
  {
    var n := |rs| as real;
    SumGpaWithin(rs, lo, hi);
    var mean := SumGpa(rs) / n;
    MeanWithin(SumGpa(rs), n, lo, hi);
    Round2Between(mean, lo, hi);
    Round2OfCents(lo);
    Round2OfCents(hi);
  }

  lemma MeanWithin(sum: real, n: real, lo: real, hi: real)
    requires n > 0.0 && lo * n <= sum <= hi * n
    ensures lo <= sum / n <= hi
  {
    assert sum / n * n == sum;
  }

  lemma {:induction false} SumGpaWithin(rs: seq<StudentRecord>, lo: real, hi: real)
    requires forall i :: 0 <= i < |rs| ==> lo <= rs[i].gpa <= hi
    ensures lo * |rs| as real <= SumGpa(rs) <= hi * |rs| as real
    decreases |rs|
  {
    if rs != [] {
      var init := rs[..|rs| - 1];
      assert forall i :: 0 <= i < |init| ==> init[i] == rs[i];
      SumGpaWithin(init, lo, hi);
      assert lo * |rs| as real == lo * |init| as real + lo;
      assert hi * |rs| as real == hi * |init| as real + hi;
    }
  }
}
