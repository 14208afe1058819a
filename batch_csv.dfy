/** The CSV handling of the batch route: the upload is cut into non-empty
    lines, the first line names the columns, every required column must be
    present, and each later line becomes one record mapping column names to
    trimmed values. The conversion reply is stripped of a Markdown code fence
    before it is parsed. */
module BatchCsv {
  import opened Wrappers
  import opened Text
  import Seqs

  // ---------------------------------------------------------------------------
  // Lines

  /** `s.split(/\r?\n/)`: the pieces between line breaks, where a break is
      "\n" or "\r\n" (a "\r" not followed by "\n" stays in its piece). */
  function SplitLines(s: string): (r: seq<string>)
    ensures |r| >= 1
    decreases |s|
  {
    if s == [] then [""]
    else if s[0] == '\n' then [""] + SplitLines(s[1..])
    else if |s| >= 2 && s[0] == '\r' && s[1] == '\n' then [""] + SplitLines(s[2..])
    else
      var rest := SplitLines(s[1..]);
      [[s[0]] + rest[0]] + rest[1..]
  }

  /** Without carriage returns, cutting at line breaks is `split("\n")`. */
  lemma {:induction false} SplitLinesOfLf(s: string)
    requires '\r' !in s
    ensures SplitLines(s) == Split(s, '\n')
    decreases |s|
  {
    if s != [] {
      assert '\r' !in s[1..] by {
        forall k | 0 <= k < |s[1..]| ensures s[1..][k] != '\r' {
          assert s[1..][k] == s[k + 1];
        }
      }
      SplitLinesOfLf(s[1..]);
    }
  }

  /** No piece of `SplitLines` holds a "\n". */
  lemma {:induction false} SplitLinesAvoidBreaks(s: string)
    ensures forall i :: 0 <= i < |SplitLines(s)| ==> '\n' !in SplitLines(s)[i]
    decreases |s|
  {
    if s != [] {
      var r := SplitLines(s);
      if s[0] == '\n' {
        SplitLinesAvoidBreaks(s[1..]);
        assert r == [""] + SplitLines(s[1..]);
        forall i | 0 < i < |r| ensures '\n' !in r[i] {
          assert r[i] == SplitLines(s[1..])[i - 1];
        }
      } else if |s| >= 2 && s[0] == '\r' && s[1] == '\n' {
        SplitLinesAvoidBreaks(s[2..]);
        assert r == [""] + SplitLines(s[2..]);
        forall i | 0 < i < |r| ensures '\n' !in r[i] {
          assert r[i] == SplitLines(s[2..])[i - 1];
        }
      } else {
        var rest := SplitLines(s[1..]);
        SplitLinesAvoidBreaks(s[1..]);
        assert r == [[s[0]] + rest[0]] + rest[1..];
        forall i | 0 <= i < |r| ensures '\n' !in r[i] {
          if i > 0 {
            assert r[i] == rest[i];
          }
        }
      }
    }
  }

  /** A line of text that has neither kind of line-break character. */
  predicate IsBreakFree(line: string) {
    '\n' !in line && '\r' !in line
  }

  /** Lines joined with "\r\n" are cut back into the same lines. */
  lemma {:induction false} SplitLinesOfCrLf(xs: seq<string>)
    requires |xs| >= 1
    requires forall i :: 0 <= i < |xs| ==> IsBreakFree(xs[i])
    ensures SplitLines(Join(xs, "\r\n")) == xs
    decreases |xs|
  {
    if |xs| == 1 {
      SplitLinesOfLf(xs[0]);
      SplitNoSeparator(xs[0], '\n');
    } else {
      SplitLinesOfCrLf(xs[1..]);
      SplitLinesAfterPiece(xs[0], Join(xs[1..], "\r\n"));
      assert Join(xs, "\r\n") == xs[0] + "\r\n" + Join(xs[1..], "\r\n");
      assert [xs[0]] + xs[1..] == xs;
    }
  }

  lemma {:induction false} SplitLinesAfterPiece(a: string, b: string)
    requires IsBreakFree(a)
    ensures SplitLines(a + "\r\n" + b) == [a] + SplitLines(b)
    decreases |a|
  {
    var s := a + "\r\n" + b;
    if a == [] {
      assert s[0] == '\r' && s[1] == '\n' && s[2..] == b;
    } else {
      assert s[0] == a[0] && s[1..] == a[1..] + "\r\n" + b;
      assert IsBreakFree(a[1..]) by {
        forall k | 0 <= k < |a[1..]| ensures a[1..][k] != '\n' && a[1..][k] != '\r' {
          assert a[1..][k] == a[k + 1];
        }
      }
      SplitLinesAfterPiece(a[1..], b);
      if |a| == 1 {
        assert s[1] == '\r' && s[2] == '\n';
      } else {
        assert s[1] == a[1];
      }
      assert [a[0]] + a[1..] == a;
    }
  }

  predicate IsNonEmpty(line: string) {
    line != ""
  }

  /** `csvContent.split(/\r?\n/).filter(Boolean)`: the non-empty lines, in
      order (`LinesFacts`). */
  function Lines(csv: string): seq<string> {
    Seqs.Filter(SplitLines(csv), IsNonEmpty)
  }

  /** Every line is non-empty and holds no "\n", and the lines keep their order. */
  lemma LinesFacts(csv: string)
    ensures forall i :: 0 <= i < |Lines(csv)| ==> Lines(csv)[i] != "" && '\n' !in Lines(csv)[i]
    ensures Seqs.IsSubsequence(Lines(csv), SplitLines(csv))
  {
    SplitLinesAvoidBreaks(csv);
    Seqs.FilterKeepsProperty(SplitLines(csv), IsNonEmpty, IsSingleLine);
    Seqs.FilterIsSubsequence(SplitLines(csv), IsNonEmpty);
  }

  // ---------------------------------------------------------------------------
  // Header and required columns

  /** The trimmed comma fields of a line: `line.split(",").map((v) => v.trim())`. */
  function Fields(line: string): (r: seq<string>)
    ensures |r| == |Split(line, ',')|
    ensures forall i :: 0 <= i < |r| ==> r[i] == Trim(Split(line, ',')[i])
  {
    var parts := Split(line, ',');
    seq(|parts|, i requires 0 <= i < |parts| => Trim(parts[i]))
  }

  const RequiredFields: seq<string> := [
    "university_name", "program_name", "student_id", "student_name", "term/semester",
    "course_code", "course_name", "credits", "grade"]

  /** The required columns the header lacks, in the order they are required. */
  function MissingFields(headers: seq<string>): (r: seq<string>)
    ensures forall f :: f in r <==> f in RequiredFields && f !in headers
    ensures Seqs.IsSubsequence(r, RequiredFields)
  {
    Seqs.FilterIsSubsequence(RequiredFields, f => f !in headers);
    Seqs.Filter(RequiredFields, f => f !in headers)
  }

  // ---------------------------------------------------------------------------
  // Records

  /** `values[index] || ""`: the value under a column, "" past the end of a short line. */
  function ValueAt(values: seq<string>, index: nat): string {
    if index < |values| then values[index] else ""
  }

  /** The record after `headers.forEach((header, index) => row[header] = ...)`
      has visited every column: a later column with the same name overwrites
      an earlier one. */
  function RowOf(headers: seq<string>, values: seq<string>): map<string, string>
    decreases |headers|
  {
    if headers == [] then map[]
    else RowOf(headers[..|headers| - 1], values)[headers[|headers| - 1] := ValueAt(values, |headers| - 1)]
  }

  /** `index` is the last position of `name` among the columns. */
  predicate IsLastIndex(headers: seq<string>, name: string, index: nat) {
    index < |headers| && headers[index] == name && name !in headers[index + 1..]
  }

  /** The record has exactly the column names as keys, and each name maps to
      the value under its last column. */
  lemma {:induction false} RowOfLookup(headers: seq<string>, values: seq<string>, name: string, index: nat)
    requires IsLastIndex(headers, name, index)
    ensures name in RowOf(headers, values) && RowOf(headers, values)[name] == ValueAt(values, index)
    decreases |headers|
  {
    var n := |headers| - 1;
    if index < n {
      var init := headers[..n];
      assert headers[n] != name by {
        assert headers[n] == headers[index + 1..][n - index - 1];
      }
      assert IsLastIndex(init, name, index) by {
        assert init[index + 1..] == headers[index + 1..n];
      }
      RowOfLookup(init, values, name, index);
    }
  }

  /** A name that is not a column is not a key of the record. */
  lemma {:induction false} RowOfKeys(headers: seq<string>, values: seq<string>, name: string)
    requires name !in headers
    ensures name !in RowOf(headers, values)
    decreases |headers|
  {
    if headers != [] {
      var init := headers[..|headers| - 1];
      assert name !in init;
      RowOfKeys(init, values, name);
    }
  }

  /** One record: each column name gets the trimmed value at its index. */
  method BuildRow(headers: seq<string>, line: string) returns (row: map<string, string>)
    ensures row == RowOf(headers, Fields(line))
  {
    var values := Fields(line);
    row := map[];
    for index := 0 to |headers|
      invariant row == RowOf(headers[..index], values)
    {
      assert headers[..index + 1][..index] == headers[..index];
      row := row[headers[index] := if index < |values| then values[index] else ""];
    }
    assert headers[..|headers|] == headers;
  }

  /** `lines.slice(1).map(...)`: one record per line after the header. */
  function Records(headers: seq<string>, lines: seq<string>): (r: seq<map<string, string>>)
    requires |lines| >= 1
    ensures |r| == |lines| - 1
  {
    seq(|lines| - 1, i requires 0 <= i < |lines| - 1 => RowOf(headers, Fields(lines[i + 1])))
  }

  /** Record `i` comes from line `i + 1` and maps each column name to that
      line's trimmed value under the name's last column. */
  lemma RecordLookup(headers: seq<string>, lines: seq<string>, i: nat, name: string, index: nat)
    requires 1 <= |lines| && i < |lines| - 1
    requires IsLastIndex(headers, name, index)
    ensures name in Records(headers, lines)[i]
    ensures Records(headers, lines)[i][name] == ValueAt(Fields(lines[i + 1]), index)
  {
    RowOfLookup(headers, Fields(lines[i + 1]), name, index);
  }

  // ---------------------------------------------------------------------------
  // The route's decision

  /** Why a batch upload is refused. */
  datatype BatchError =
    | NoFile                            // 400 "No CSV file uploaded"
    | MissingRequired(fields: seq<string>)  // 400 "Missing required fields: ..."
    | ProcessingFailed                  // 500: the upload has no line, so `lines[0]` is undefined

  function ErrorMessage(e: BatchError): string {
    match e
    case NoFile => "No CSV file uploaded"
    case MissingRequired(fields) => "Missing required fields: " + Join(fields, ", ")
    case ProcessingFailed => "Processing failed"
  }

  /** The records the route builds from an upload, or why it refuses it. */
  function ParseBatch(file: Option<string>): Result<seq<map<string, string>>, BatchError> {
    if file.None? then Failure(NoFile)
    else
      var lines := Lines(file.value);
      if lines == [] then Failure(ProcessingFailed)
      else
        var headers := Fields(lines[0]);
        var missing := MissingFields(headers);
        if missing != [] then Failure(MissingRequired(missing))
        else Success(Records(headers, lines))
  }

  /** An upload is accepted exactly when it has a line whose fields name every
      required column, and then it yields one record per later line; otherwise
      the error names exactly the missing columns. */
  lemma ParseBatchOutcome(csv: string)
    ensures var lines := Lines(csv);
      && (lines == [] <==> ParseBatch(Some(csv)) == Failure(ProcessingFailed))
      && (lines != [] ==>
            var headers := Fields(lines[0]);
            && (ParseBatch(Some(csv)).Success? <==> forall f :: f in RequiredFields ==> f in headers)
            && (ParseBatch(Some(csv)).Success? ==> |ParseBatch(Some(csv)).value| == |lines| - 1)
            && (ParseBatch(Some(csv)).Failure? ==>
                  ParseBatch(Some(csv)).error == MissingRequired(MissingFields(headers))))
  {
    var lines := Lines(csv);
    if lines != [] {
      var headers := Fields(lines[0]);
      var missing := MissingFields(headers);
      if missing != [] {
        var f := missing[0];
        assert f in RequiredFields && f !in headers;
      }
    }
  }

  // ---------------------------------------------------------------------------
  // The code fence around the reply

  const Fence := "```"

  // `s.replace(/^\s*```<tag>\s*/i, "")` for a lower-case `tag`: the white space,
  // the fence and the tag (in any case) at the start go, with the white space after them.
  function StripOpenFence(s: string, tag: string): string {
    var t := TrimStart(s);
    var n := |Fence| + |tag|;
    if |t| >= n && t[..3] == Fence && ToLower(t[3..n]) == tag then TrimStart(t[n..]) else s
  }

  // `s.replace(/\s*```$/, "")`: a fence at the very end goes, with the white space before it.
  function StripCloseFence(s: string): string {
    if EndsWith(s, Fence) then TrimEnd(s[..|s| - 3]) else s
  }

  /** The reply as it is handed to the JSON parser. */
  function CleanResponse(reply: string): (r: string)
    ensures IsTrimmed(r)
  {
    var t := StripCloseFence(StripOpenFence(StripOpenFence(reply, "json"), ""));
    TrimFacts(t);
    Trim(t)
  }

  /** A body that is trimmed and neither starts nor ends with a fence. */
  predicate IsPlainBody(body: string) {
    body != [] && IsTrimmed(body) && !StartsWith(body, Fence) && !EndsWith(body, Fence)
  }

  /** A reply without a fence is only trimmed. */
  lemma CleanPlainReply(body: string)
    requires IsPlainBody(body)
    ensures CleanResponse(body) == body
  {
    TrimStartOfNonSpace(body);
    assert StripOpenFence(body, "json") == body;
    assert StripOpenFence(body, "") == body;
    TrimFacts(body);
  }

  /** A body wrapped in "```json" (the tag in any case) or a bare "```" fence,
      each on its own line, comes out unwrapped. */
  lemma CleanFencedReply(tag: string, body: string)
    requires ToLower(tag) == "json" || tag == ""
    requires IsPlainBody(body)
    ensures CleanResponse(Fence + tag + "\n" + body + "\n" + Fence) == body
  {
    var inner := body + "\n" + Fence;
    assert Fence + tag + "\n" + body + "\n" + Fence == Fence + tag + "\n" + inner;
    assert !StartsWith(inner, Fence) by {
      if |body| < 3 {
        assert inner[|body|] == '\n';
      } else {
        assert inner[..3] == body[..3];
      }
    }
    OpenFenceStripped(tag, inner);
    CloseFenceStripped(body);
    TrimFacts(body);
  }

  /** Both opening-fence passes together remove a leading fence line. */
  lemma OpenFenceStripped(tag: string, inner: string)
    requires ToLower(tag) == "json" || tag == ""
    requires inner != [] && !IsSpace(inner[0]) && !StartsWith(inner, Fence)
    ensures StripOpenFence(StripOpenFence(Fence + tag + "\n" + inner, "json"), "") == inner
  {
    var reply := Fence + tag + "\n" + inner;
    TrimStartOfNonSpace(reply);
    TrimStartOfNonSpace(inner);
    assert TrimStart("\n" + inner) == inner by {
      assert ("\n" + inner)[1..] == inner;
    }
    if tag == "" {
      assert reply[3] == '\n';
      assert StripOpenFence(reply, "json") == reply by {
        if |reply| >= 7 {
          assert ToLower(reply[3..7])[0] == '\n';
        }
      }
      assert reply[3..] == "\n" + inner;
    } else {
      assert reply[..3] == Fence && reply[3..7] == tag && reply[7..] == "\n" + inner;
    }
  }

  /** The closing pass removes a fence on its own last line. */
  lemma CloseFenceStripped(body: string)
    requires body != [] && !IsSpace(body[|body| - 1])
    ensures StripCloseFence(body + "\n" + Fence) == body
  {
    var s := body + "\n" + Fence;
    assert s[..|s| - 3] == body + "\n";
    assert (body + "\n")[..|body|] == body;
    TrimEndOfNonSpace(body);
  }

  lemma TrimEndOfNonSpace(s: string)
    requires s != [] && !IsSpace(s[|s| - 1])
    ensures TrimEnd(s) == s
  {
  }
}
