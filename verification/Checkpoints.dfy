/** The resumable evaluation runner (scripts/run_evaluation.py): capped retries, one checkpoint line per
    evaluated case, and a restart that only evaluates what has no compatible OK line yet. */
module Checkpoints {
  import opened Outcomes

  type Question = string
  type Fingerprint = string

  datatype TestCase = TestCase(question: Question, fingerprint: Fingerprint)

  datatype Status = Done | SkippedQuota | JudgeParseInvalid | JudgeSkippedQuota

  datatype Record = Record(question: Question, fingerprint: Fingerprint, status: Status, body: string)

  /** A line of the checkpoint file: blank, a record, or what an interrupted write left behind. */
  datatype Line = Blank | Written(record: Record) | Torn

  // ---------------------------------------------------------------- capped retries

  /** One attempt at a provider call. A judge response that does not parse is not retried. */
  datatype Attempt = Returns(value: string) | ParseError(message: string) | Throws(message: string)

  datatype Failure = ParseInvalid(message: string) | LastError(message: string)

  const ATTEMPTS := 3

  /** The attempts are made in order until one is not an ordinary exception, at most three times. */
  ghost predicate Tried(attempt: nat -> Attempt, made: nat) {
    && 1 <= made <= 3
    && (forall k :: 0 <= k < made - 1 ==> attempt(k).Throws?)
    && (made < 3 ==> !attempt(made - 1).Throws?)
  }

  function Decide(attempt: nat -> Attempt, k: nat): Attempt
    decreases ATTEMPTS - k
  {
    if k + 1 < ATTEMPTS && attempt(k).Throws? then Decide(attempt, k + 1) else attempt(k)
  }

  /** The first success wins; a parse error or three exceptions give the error back instead. */
  method CallWithCappedRetry(attempt: nat -> Attempt) returns (value: Option<string>, failure: Option<Failure>, made: nat)
    ensures Tried(attempt, made)
    ensures attempt(made - 1) == Decide(attempt, 0)
    ensures value == if attempt(made - 1).Returns? then Some(attempt(made - 1).value) else None
    ensures failure == match attempt(made - 1)
                       case Returns(_) => None
                       case ParseError(m) => Some(ParseInvalid(m))
                       case Throws(m) => Some(LastError(m))
  {
    failure, made := None, 0;
    for k := 0 to ATTEMPTS
      invariant made == k
      invariant forall j :: 0 <= j < k ==> attempt(j).Throws?
      invariant k < ATTEMPTS ==> Decide(attempt, k) == Decide(attempt, 0)
      invariant k > 0 ==> failure == Some(LastError(attempt(k - 1).message))
      invariant k == ATTEMPTS ==> Decide(attempt, 0) == attempt(k - 1)
    {
      made := k + 1;
      match attempt(k)
      case Returns(v) => return Some(v), None, made;
      case ParseError(m) => return None, Some(ParseInvalid(m)), made;
      case Throws(m) => failure := Some(LastError(m));
    }
    value := None;
  }

  // ---------------------------------------------------------------- one case

  /** The provider, as far as one run can see it. */
  datatype Provider = Provider(answer: (TestCase, nat) -> Attempt, judge: (TestCase, string, nat) -> Attempt)

  function Answers(p: Provider, tc: TestCase): nat -> Attempt { (k: nat) => p.answer(tc, k) }

  function Judgements(p: Provider, tc: TestCase, answer: string): nat -> Attempt { (k: nat) => p.judge(tc, answer, k) }

  /** The record a case gets: answer first, then judge the answer. It carries the fingerprint the run expects
      for the question. */
  function Evaluate(p: Provider, tc: TestCase, stamp: Fingerprint): Record {
    match Decide(Answers(p, tc), 0)
    case Returns(answer) =>
      (match Decide(Judgements(p, tc, answer), 0)
       case Returns(scores) => Record(tc.question, stamp, Done, scores)
       case ParseError(m) => Record(tc.question, stamp, JudgeParseInvalid, m)
       case Throws(m) => Record(tc.question, stamp, JudgeSkippedQuota, m))
    case ParseError(m) => Record(tc.question, stamp, SkippedQuota, m)
    case Throws(m) => Record(tc.question, stamp, SkippedQuota, m)
  }

  /** `asked` attempts at an answer and, if there is one, `judged` attempts at judging that very answer. */
  ghost predicate AskedAndJudged(p: Provider, tc: TestCase, asked: nat, judged: nat) {
    && Tried(Answers(p, tc), asked)
    && (p.answer(tc, asked - 1).Returns? ==> Tried(Judgements(p, tc, p.answer(tc, asked - 1).value), judged))
  }

  /** What a record says about the calls behind it, each status in both directions. */
  ghost predicate Tells(r: Record, p: Provider, tc: TestCase, asked: nat, judged: nat)
    requires AskedAndJudged(p, tc, asked, judged)
  {
    var answer := p.answer(tc, asked - 1);
    && (r.status.SkippedQuota? <==> !answer.Returns?)
    && (answer.Throws? ==> r.body == answer.message)
    && (answer.ParseError? ==> r.body == answer.message)
    && (answer.Returns? ==>
          var verdict := p.judge(tc, answer.value, judged - 1);
          && (r.status.Done? <==> verdict.Returns?)
          && (r.status.JudgeParseInvalid? <==> verdict.ParseError?)
          && (r.status.JudgeSkippedQuota? <==> verdict.Throws?)
          && r.body == if verdict.Returns? then verdict.value else verdict.message)
  }

  /** Two guarded calls decide a case: no answer is SKIPPED_QUOTA whatever went wrong, an answer is OK exactly
      when some judging attempt returned before the third exception and before any parse error. */
  method EvaluateCase(p: Provider, tc: TestCase, stamp: Fingerprint)
    returns (r: Record, ghost asked: nat, ghost judged: nat)
    ensures AskedAndJudged(p, tc, asked, judged) && Tells(r, p, tc, asked, judged)
    ensures r.question == tc.question && r.fingerprint == stamp
    ensures r == Evaluate(p, tc, stamp)
  {
    var answer, error, made := CallWithCappedRetry(Answers(p, tc));
    asked, judged := made, 0;
    if answer.None? {
      r := Record(tc.question, stamp, SkippedQuota, error.value.message);
      return;
    }
    var scores, judgeError, again := CallWithCappedRetry(Judgements(p, tc, answer.value));
    judged := again;
    if scores.None? {
      var status := if judgeError.value.ParseInvalid? then JudgeParseInvalid else JudgeSkippedQuota;
      r := Record(tc.question, stamp, status, judgeError.value.message);
      return;
    }
    r := Record(tc.question, stamp, Done, scores.value);
  }

  // ---------------------------------------------------------------- the checkpoint file

  /** The lines of the file, and whether the last one lacks its newline. */
  datatype File = File(lines: seq<Line>, open: bool)

  const EMPTY := File([], false)

  /** What two texts on one line read as. */
  function Glue(last: Line, next: Line): Line { if last.Blank? then next else Torn }

  /** The file after these lines are written to it; the first one continues an open line. */
  function Extended(file: File, lines: seq<Line>): File {
    if lines == [] then file
    else if file.open && file.lines != [] then
      var n := |file.lines| - 1;
      File(file.lines[..n] + [Glue(file.lines[n], lines[0])] + lines[1..], false)
    else File(file.lines + lines, false)
  }

  lemma ExtendedNext(file: File, lines: seq<Line>, last: Line)
    ensures Extended(file, lines + [last]) == Extended(Extended(file, lines), [last])
  {
    if lines == [] {
      assert [] + [last] == [last];
    } else {
      assert (lines + [last])[1..] == lines[1..] + [last];
      if file.open && file.lines != [] {
        var n := |file.lines| - 1;
        var front := file.lines[..n] + [Glue(file.lines[n], lines[0])];
        assert front + (lines[1..] + [last]) == front + lines[1..] + [last];
      } else {
        assert file.lines + (lines + [last]) == file.lines + lines + [last];
      }
    }
  }

  ghost predicate Distinct(cases: seq<TestCase>) {
    forall i, j :: 0 <= i < j < |cases| ==> cases[i].question != cases[j].question
  }

  /** The fingerprint expected for each selected question; a repeated question keeps its last one. */
  function Expected(cases: seq<TestCase>): map<Question, Fingerprint> {
    if cases == [] then map[]
    else Expected(cases[..|cases| - 1])[cases[|cases| - 1].question := cases[|cases| - 1].fingerprint]
  }

  lemma {:induction false} ExpectedHas(cases: seq<TestCase>, i: nat)
    requires i < |cases|
    ensures cases[i].question in Expected(cases)
    ensures Distinct(cases) ==> Expected(cases)[cases[i].question] == cases[i].fingerprint
  {
    if i < |cases| - 1 { ExpectedHas(cases[..|cases| - 1], i); }
  }

  /** What is expected of a selected question is the fingerprint of its last case, and nothing of any other. */
  lemma {:induction false} ExpectedIs(cases: seq<TestCase>, q: Question)
    ensures q in Expected(cases) <==> exists i :: 0 <= i < |cases| && cases[i].question == q
    ensures forall i :: 0 <= i < |cases| && cases[i].question == q && (forall k :: i < k < |cases| ==> cases[k].question != q) ==>
              q in Expected(cases) && Expected(cases)[q] == cases[i].fingerprint
  {
    if cases != [] {
      var front := cases[..|cases| - 1];
      ExpectedIs(front, q);
      assert forall i :: 0 <= i < |front| ==> front[i] == cases[i];
      if i :| 0 <= i < |front| && front[i].question == q { assert cases[i].question == q; }
    }
  }

  predicate OkLine(l: Line, q: Question, stamp: Fingerprint) {
    l.Written? && l.record.status.Done? && l.record.question == q && l.record.fingerprint == stamp
  }

  /** Some line is a compatible success for this question. */
  ghost predicate IsDone(lines: seq<Line>, q: Question, stamp: Fingerprint) {
    exists i :: 0 <= i < |lines| && OkLine(lines[i], q, stamp)
  }

  ghost predicate DoneIn(lines: seq<Line>, expected: map<Question, Fingerprint>, q: Question) {
    q in expected && IsDone(lines, q, expected[q])
  }

  function StampOf(expected: map<Question, Fingerprint>, tc: TestCase): Fingerprint {
    if tc.question in expected then expected[tc.question] else tc.fingerprint
  }

  /** The lines a run appends: one for every selected case that is not done, in order. */
  ghost function NewLines(lines: seq<Line>, p: Provider, expected: map<Question, Fingerprint>, cases: seq<TestCase>): seq<Line> {
    if cases == [] then []
    else
      var last := cases[|cases| - 1];
      NewLines(lines, p, expected, cases[..|cases| - 1])
      + (if DoneIn(lines, expected, last.question) then [] else [Written(Evaluate(p, last, StampOf(expected, last)))])
  }

  /** The lines of a whole run. */
  ghost function RunLines(lines: seq<Line>, p: Provider, cases: seq<TestCase>): seq<Line> {
    NewLines(lines, p, Expected(cases), cases)
  }

  function DoneRecords(lines: seq<Line>): seq<Record> {
    if lines == [] then []
    else
      var last := lines[|lines| - 1];
      DoneRecords(lines[..|lines| - 1]) + if last.Written? && last.record.status.Done? then [last.record] else []
  }

  function SkippedRecords(lines: seq<Line>): seq<Record> {
    if lines == [] then []
    else
      var last := lines[|lines| - 1];
      SkippedRecords(lines[..|lines| - 1]) + if last.Written? && !last.record.status.Done? then [last.record] else []
  }

  /** The records are exactly the OK ones among the lines, the skipped ones exactly the others. */
  lemma {:induction false} RecordsAre(lines: seq<Line>, r: Record)
    ensures r in DoneRecords(lines) <==> r.status == Done && Written(r) in lines
    ensures r in SkippedRecords(lines) <==> r.status != Done && Written(r) in lines
  {
    if lines != [] {
      RecordsAre(lines[..|lines| - 1], r);
      assert lines == lines[..|lines| - 1] + [lines[|lines| - 1]];
    }
  }

  lemma SortedNext(lines: seq<Line>, r: Record)
    ensures DoneRecords(lines + [Written(r)]) == if r.status.Done? then DoneRecords(lines) + [r] else DoneRecords(lines)
    ensures SkippedRecords(lines + [Written(r)]) == if r.status.Done? then SkippedRecords(lines) else SkippedRecords(lines) + [r]
  {
    assert (lines + [Written(r)])[..|lines|] == lines;
  }

  /** The successes loaded from the file: a dictionary, in the order its questions were first met. */
  datatype Loaded = Loaded(records: map<Question, Record>, order: seq<Question>) {
    ghost predicate Valid() {
      && (forall q :: q in order <==> q in records)
      && (forall i, j :: 0 <= i < j < |order| ==> order[i] != order[j])
      && (forall q :: q in records ==> records[q].question == q && records[q].status.Done?)
    }

    function Set(r: Record): Loaded {
      Loaded(records[r.question := r], if r.question in records then order else order + [r.question])
    }

    function Values(): seq<Record>
      requires forall q :: q in order ==> q in records
    {
      seq(|order|, i requires 0 <= i < |order| => records[order[i]])
    }
  }

  class Runner {
    var file: File

    constructor ()
      ensures file == EMPTY
    {
      file := EMPTY;
    }

    /** The compatible successes by question, or an error when a line cannot be parsed. */
    method LoadCheckpoint(expected: map<Question, Fingerprint>) returns (r: Result<Loaded>)
      ensures r.Raised? <==> Torn in file.lines
      ensures r.Ok? ==> r.value.Valid()
      ensures r.Ok? ==> forall q :: q in r.value.records <==> DoneIn(file.lines, expected, q)
      ensures r.Ok? ==> forall q :: q in r.value.records <==> q in expected && exists i :: LastLine(file.lines, q, expected[q], i)
      ensures r.Ok? ==> forall q, i :: q in expected && LastLine(file.lines, q, expected[q], i) ==>
                          q in r.value.records && file.lines[i] == Written(r.value.records[q])
      ensures r.Ok? ==> AsMet(file.lines, |file.lines|, expected, r.value.order)
    {
      r := LoadLines(expected);
      if r.Ok? {
        assert file.lines[..|file.lines|] == file.lines;
        LoadedIs(file.lines, expected, r.value);
      }
    }

    /** The loop over the lines. */
    method LoadLines(expected: map<Question, Fingerprint>) returns (r: Result<Loaded>)
      ensures r.Raised? <==> Torn in file.lines
      ensures r.Ok? ==> Loading(file.lines, |file.lines|, expected, r.value)
    {
      var done := Loaded(map[], []);
      assert Loading(file.lines, 0, expected, done);
      hide Loading;
      for n := 0 to |file.lines|
        invariant (forall k :: 0 <= k < n ==> file.lines[k] != Torn) && Loading(file.lines, n, expected, done)
      {
        LoadingNext(file.lines, n, expected, done);
        match file.lines[n]
        case Torn => return Raised("JSONDecodeError");
        case Blank =>
        case Written(record) =>
          if record.status.Done? && record.question in expected && record.fingerprint == expected[record.question] {
            done := done.Set(record);
          }
      }
      r := Ok(done);
    }

    /** One line at the end of the file; behind an open line it becomes part of that one, and is lost with it unless
        that was blank. */
    method Append(record: Record)
      modifies this
      ensures !file.open
      ensures !old(file).open || old(file).lines == [] ==> file.lines == old(file).lines + [Written(record)]
      ensures old(file).open && old(file).lines != [] ==>
                var n := |old(file).lines| - 1;
                && |file.lines| == n + 1 && file.lines[..n] == old(file).lines[..n]
                && file.lines[n] == if old(file).lines[n] == Blank then Written(record) else Torn
      ensures file == Extended(old(file), [Written(record)])
    {
      if file.open && file.lines != [] {
        var n := |file.lines| - 1;
        file := File(file.lines[..n] + [Glue(file.lines[n], Written(record))], false);
        assert [Written(record)][1..] == [];
      } else {
        file := File(file.lines + [Written(record)], false);
      }
    }

    /** One run over the selected cases. The file grows by one line for each case that was not done; the
        records are the loaded successes and the new ones, the skipped ones the other new ones, in order. */
    method RunCases(cases: seq<TestCase>, p: Provider, wipe: bool)
      returns (loaded: Result<Loaded>, records: seq<Record>, skipped: seq<Record>)
      modifies this
      ensures loaded.Raised? <==> !wipe && Torn in old(file).lines
      ensures loaded.Raised? ==> file == old(file)
      ensures loaded.Ok? ==>
                var start := if wipe then EMPTY else old(file);
                && file == Extended(start, RunLines(start.lines, p, cases))
                && loaded.value.Valid()
                && (forall q :: q in loaded.value.records <==> DoneIn(start.lines, Expected(cases), q))
                && records == loaded.value.Values() + DoneRecords(RunLines(start.lines, p, cases))
                && skipped == SkippedRecords(RunLines(start.lines, p, cases))
    {
      if wipe { file := EMPTY; }
      var expected := ExpectedFingerprints(cases);
      loaded := LoadCheckpoint(expected);
      records, skipped := [], [];
      if loaded.Raised? { return; }
      var fresh_;
      fresh_, skipped := EvaluateMissing(cases, p, expected, loaded.value);
      records := loaded.value.Values() + fresh_;
    }

    /** The case loop. */
    method EvaluateMissing(cases: seq<TestCase>, p: Provider, expected: map<Question, Fingerprint>, loaded: Loaded)
      returns (records: seq<Record>, skipped: seq<Record>)
      requires forall q :: q in loaded.records <==> DoneIn(file.lines, expected, q)
      modifies this
      ensures file == Extended(old(file), NewLines(old(file).lines, p, expected, cases))
      ensures records == DoneRecords(NewLines(old(file).lines, p, expected, cases))
      ensures skipped == SkippedRecords(NewLines(old(file).lines, p, expected, cases))
    {
      records, skipped := [], [];
      ghost var start, lines := file, [];
      for i := 0 to |cases|
        invariant lines == NewLines(start.lines, p, expected, cases[..i]) && file == Extended(start, lines)
        invariant records == DoneRecords(lines) && skipped == SkippedRecords(lines)
      {
        NewLinesNext(start.lines, p, expected, cases, i);
        if cases[i].question !in loaded.records {
          var record, _, _ := EvaluateCase(p, cases[i], StampOf(expected, cases[i]));
          Append(record);
          ExtendedNext(start, lines, Written(record));
          SortedNext(lines, record);
          lines := lines + [Written(record)];
          if record.status.Done? { records := records + [record]; } else { skipped := skipped + [record]; }
        }
      }
      assert cases[..|cases|] == cases;
    }
  }

  /** How many of these cases are not done. */
  ghost function Undone(lines: seq<Line>, expected: map<Question, Fingerprint>, cases: seq<TestCase>): nat {
    if cases == [] then 0
    else Undone(lines, expected, cases[..|cases| - 1]) + if DoneIn(lines, expected, cases[|cases| - 1].question) then 0 else 1
  }

  /** A run writes one line for each case that is not done, and that of a case stands behind those of the cases not
      done before it. */
  lemma {:induction false} NewLinesInOrder(lines: seq<Line>, p: Provider, expected: map<Question, Fingerprint>, cases: seq<TestCase>,
                                           i: nat)
    requires i < |cases| && !DoneIn(lines, expected, cases[i].question)
    ensures |NewLines(lines, p, expected, cases)| == Undone(lines, expected, cases) > Undone(lines, expected, cases[..i])
    ensures NewLines(lines, p, expected, cases)[Undone(lines, expected, cases[..i])]
            == Written(Evaluate(p, cases[i], StampOf(expected, cases[i])))
  {
    var n := |cases| - 1;
    NewLinesNext(lines, p, expected, cases, n);
    NewLinesCounted(lines, p, expected, cases);
    NewLinesCounted(lines, p, expected, cases[..n]);
    assert cases[..n + 1] == cases;
    if i < n {
      assert cases[..n][..i] == cases[..i] && cases[..n][i] == cases[i];
      NewLinesInOrder(lines, p, expected, cases[..n], i);
    }
  }

  lemma {:induction false} NewLinesCounted(lines: seq<Line>, p: Provider, expected: map<Question, Fingerprint>, cases: seq<TestCase>)
    ensures |NewLines(lines, p, expected, cases)| == Undone(lines, expected, cases)
  {
    if cases != [] { NewLinesCounted(lines, p, expected, cases[..|cases| - 1]); }
  }

  lemma NewLinesNext(lines: seq<Line>, p: Provider, expected: map<Question, Fingerprint>, cases: seq<TestCase>, i: nat)
    requires i < |cases|
    ensures NewLines(lines, p, expected, cases[..i + 1])
            == if DoneIn(lines, expected, cases[i].question) then NewLines(lines, p, expected, cases[..i])
               else NewLines(lines, p, expected, cases[..i]) + [Written(Evaluate(p, cases[i], StampOf(expected, cases[i])))]
  {
    assert cases[..i + 1][..i] == cases[..i];
    assert NewLines(lines, p, expected, cases[..i]) + [] == NewLines(lines, p, expected, cases[..i]);
  }

  /** The dictionary of expected fingerprints. */
  method ExpectedFingerprints(cases: seq<TestCase>) returns (expected: map<Question, Fingerprint>)
    ensures expected == Expected(cases)
  {
    expected := map[];
    for i := 0 to |cases|
      invariant expected == Expected(cases[..i])
    {
      assert cases[..i + 1][..i] == cases[..i];
      expected := expected[cases[i].question := cases[i].fingerprint];
    }
    assert cases[..|cases|] == cases;
  }

  /** Line i is the last that records an OK of this question under this fingerprint. */
  ghost predicate LastLine(lines: seq<Line>, q: Question, stamp: Fingerprint, i: int) {
    0 <= i < |lines| && RecordsOk(lines[i], q, stamp) && forall k :: i < k < |lines| ==> !RecordsOk(lines[k], q, stamp)
  }

  ghost predicate RecordsOk(l: Line, q: Question, stamp: Fingerprint) {
    exists body :: l == Written(Record(q, stamp, Done, body))
  }

  lemma OkRecorded(l: Line, q: Question, stamp: Fingerprint)
    ensures RecordsOk(l, q, stamp) <==> OkLine(l, q, stamp)
  {
    if OkLine(l, q, stamp) {
      assert l == Written(Record(q, stamp, Done, l.record.body));
    }
  }

  lemma {:induction false} LastLineIs(lines: seq<Line>, q: Question, stamp: Fingerprint, i: nat)
    requires LastLine(lines, q, stamp, i)
    ensures lines[i].Written? && LastSuccess(lines, q, stamp) == Some(lines[i].record)
    decreases |lines|
  {
    var n := |lines| - 1;
    OkRecorded(lines[n], q, stamp);
    if i < n {
      assert forall k :: 0 <= k < n ==> lines[..n][k] == lines[k];
      LastLineIs(lines[..n], q, stamp, i);
    }
  }

  lemma {:induction false} LastLineOf(lines: seq<Line>, q: Question, stamp: Fingerprint) returns (i: nat)
    requires IsDone(lines, q, stamp)
    ensures LastLine(lines, q, stamp, i)
    decreases |lines|
  {
    var n := |lines| - 1;
    OkRecorded(lines[n], q, stamp);
    if OkLine(lines[n], q, stamp) {
      i := n;
    } else {
      var k :| 0 <= k < |lines| && OkLine(lines[k], q, stamp);
      assert OkLine(lines[..n][k], q, stamp);
      i := LastLineOf(lines[..n], q, stamp);
      assert forall k :: 0 <= k < n ==> lines[..n][k] == lines[k];
    }
  }

  /** Line i records an OK of this question under the expected fingerprint. */
  ghost predicate CompatibleAt(lines: seq<Line>, expected: map<Question, Fingerprint>, q: Question, i: nat)
    requires i < |lines|
  {
    q in expected && OkLine(lines[i], q, expected[q])
  }

  /** One of the first n lines does. */
  ghost predicate MetBy(lines: seq<Line>, expected: map<Question, Fingerprint>, q: Question, n: nat)
    requires n <= |lines|
  {
    exists i :: 0 <= i < n && CompatibleAt(lines, expected, q, i)
  }

  /** The questions stand in the order in which a compatible OK of them was first met. */
  ghost predicate AsMet(lines: seq<Line>, n: nat, expected: map<Question, Fingerprint>, order: seq<Question>)
    requires n <= |lines|
  {
    forall a, b, j :: 0 <= a < b < |order| && 0 <= j < n && CompatibleAt(lines, expected, order[b], j) ==>
      MetBy(lines, expected, order[a], j)
  }

  lemma MetIsDone(lines: seq<Line>, expected: map<Question, Fingerprint>, q: Question, n: nat)
    requires n <= |lines| && q in expected
    ensures MetBy(lines, expected, q, n) <==> IsDone(lines[..n], q, expected[q])
  {
    if i :| 0 <= i < n && CompatibleAt(lines, expected, q, i) { assert OkLine(lines[..n][i], q, expected[q]); }
    if i :| 0 <= i < n && OkLine(lines[..n][i], q, expected[q]) { assert CompatibleAt(lines, expected, q, i); }
  }

  /** One more line leaves the order as it is, or adds a question met for the first time. */
  lemma MetNext(lines: seq<Line>, expected: map<Question, Fingerprint>, order: seq<Question>, n: nat)
    requires n < |lines| && AsMet(lines, n, expected, order)
    requires forall q :: q in order ==> MetBy(lines, expected, q, n)
    ensures AsMet(lines, n + 1, expected, order)
    ensures forall q :: !MetBy(lines, expected, q, n) ==> AsMet(lines, n + 1, expected, order + [q])
  {
    forall a, b, j | 0 <= a < b < |order| && 0 <= j < n + 1 && CompatibleAt(lines, expected, order[b], j)
      ensures MetBy(lines, expected, order[a], j)
    {
      assert order[a] in order;
    }
    forall q | !MetBy(lines, expected, q, n) ensures AsMet(lines, n + 1, expected, order + [q]) {
      var more := order + [q];
      forall a, b, j | 0 <= a < b < |more| && 0 <= j < n + 1 && CompatibleAt(lines, expected, more[b], j)
        ensures MetBy(lines, expected, more[a], j)
      {
        assert order[a] in order;
      }
    }
  }

  /** The dictionary holds the last success of every question among the first n lines, and of no other. */
  ghost predicate Holds(lines: seq<Line>, expected: map<Question, Fingerprint>, done: Loaded) {
    && (forall q :: q in done.records ==> q in expected)
    && (forall q :: q in expected ==>
          LastSuccess(lines, q, expected[q]) == if q in done.records then Some(done.records[q]) else None)
  }

  /** What is loaded from the first n lines. */
  ghost predicate Loading(lines: seq<Line>, n: nat, expected: map<Question, Fingerprint>, done: Loaded)
    requires n <= |lines|
  {
    done.Valid() && Holds(lines[..n], expected, done) && AsMet(lines, n, expected, done.order)
  }

  lemma LoadingNext(lines: seq<Line>, n: nat, expected: map<Question, Fingerprint>, done: Loaded)
    requires n < |lines| && Loading(lines, n, expected, done)
    ensures var l := lines[n];
            if l.Written? && l.record.question in expected && OkLine(l, l.record.question, expected[l.record.question])
            then Loading(lines, n + 1, expected, done.Set(l.record))
            else Loading(lines, n + 1, expected, done)
  {
    assert lines[..n + 1] == lines[..n] + [lines[n]];
    OrderNext(lines, n, expected, done);
    HoldsNext(lines[..n], lines[n], expected, done);
    hide AsMet, Holds;
  }

  /** A line that records an expected OK is taken into the dictionary; any other leaves it as it is. */
  lemma HoldsNext(lines: seq<Line>, l: Line, expected: map<Question, Fingerprint>, done: Loaded)
    requires Holds(lines, expected, done)
    ensures if l.Written? && l.record.question in expected && OkLine(l, l.record.question, expected[l.record.question])
            then Holds(lines + [l], expected, done.Set(l.record))
            else Holds(lines + [l], expected, done)
  {
    assert (lines + [l])[..|lines|] == lines;
  }

  lemma OrderNext(lines: seq<Line>, n: nat, expected: map<Question, Fingerprint>, done: Loaded)
    requires n < |lines| && done.Valid() && Holds(lines[..n], expected, done) && AsMet(lines, n, expected, done.order)
    ensures AsMet(lines, n + 1, expected, done.order)
    ensures forall q :: q in expected && q !in done.records ==> AsMet(lines, n + 1, expected, done.order + [q])
  {
    hide AsMet, OkLine;
    forall q | q in expected ensures MetBy(lines, expected, q, n) <==> q in done.records {
      LastSuccessExact(lines[..n], q, expected[q]);
      MetIsDone(lines, expected, q, n);
    }
    MetNext(lines, expected, done.order, n);
  }

  lemma LoadedIs(lines: seq<Line>, expected: map<Question, Fingerprint>, done: Loaded)
    requires Holds(lines, expected, done)
    ensures forall q :: q in done.records <==> DoneIn(lines, expected, q)
    ensures forall q :: q in done.records <==> q in expected && exists i :: LastLine(lines, q, expected[q], i)
    ensures forall q, i :: q in expected && LastLine(lines, q, expected[q], i) ==>
              q in done.records && lines[i] == Written(done.records[q])
  {
    forall q | q in expected
      ensures q in done.records <==> IsDone(lines, q, expected[q])
      ensures q in done.records <==> exists i :: LastLine(lines, q, expected[q], i)
    {
      LastSuccessExact(lines, q, expected[q]);
      if q in done.records { var _ := LastLineOf(lines, q, expected[q]); }
      if i :| LastLine(lines, q, expected[q], i) { LastLineIs(lines, q, expected[q], i); }
    }
    forall q, i | q in expected && LastLine(lines, q, expected[q], i)
      ensures q in done.records && lines[i] == Written(done.records[q])
    {
      LastLineIs(lines, q, expected[q], i);
    }
  }

  /** The last compatible success of a question. */
  function LastSuccess(lines: seq<Line>, q: Question, stamp: Fingerprint): Option<Record> {
    if lines == [] then None
    else if OkLine(lines[|lines| - 1], q, stamp) then Some(lines[|lines| - 1].record)
    else LastSuccess(lines[..|lines| - 1], q, stamp)
  }

  lemma {:induction false} LastSuccessExact(lines: seq<Line>, q: Question, stamp: Fingerprint)
    ensures LastSuccess(lines, q, stamp).Some? <==> IsDone(lines, q, stamp)
  {
    if lines != [] {
      var front := lines[..|lines| - 1];
      LastSuccessExact(front, q, stamp);
      if i :| 0 <= i < |front| && OkLine(front[i], q, stamp) {
        assert OkLine(lines[i], q, stamp);
      }
      if i :| 0 <= i < |front| && OkLine(lines[i], q, stamp) {
        assert OkLine(front[i], q, stamp);
      }
    }
  }

  // ---------------------------------------------------------------- one run puts every case in one place

  function CountFor(rs: seq<Record>, q: Question): nat {
    if rs == [] then 0 else CountFor(rs[..|rs| - 1], q) + if rs[|rs| - 1].question == q then 1 else 0
  }

  function LinesFor(lines: seq<Line>, q: Question): nat {
    if lines == [] then 0
    else LinesFor(lines[..|lines| - 1], q)
         + if lines[|lines| - 1].Written? && lines[|lines| - 1].record.question == q then 1 else 0
  }

  lemma {:induction false} CountConcat(a: seq<Record>, b: seq<Record>, q: Question)
    ensures CountFor(a + b, q) == CountFor(a, q) + CountFor(b, q)
  {
    if b == [] {
      assert a + b == a;
    } else {
      CountConcat(a, b[..|b| - 1], q);
      assert (a + b)[..|a + b| - 1] == a + b[..|b| - 1];
    }
  }

  lemma {:induction false} SortedCount(lines: seq<Line>, q: Question)
    ensures CountFor(DoneRecords(lines), q) + CountFor(SkippedRecords(lines), q) == LinesFor(lines, q)
  {
    if lines != [] {
      var front, last := lines[..|lines| - 1], lines[|lines| - 1];
      SortedCount(front, q);
      if last.Written? {
        CountConcat(DoneRecords(front), [last.record], q);
        CountConcat(SkippedRecords(front), [last.record], q);
      }
      assert DoneRecords(front) + [] == DoneRecords(front) && SkippedRecords(front) + [] == SkippedRecords(front);
    }
  }

  lemma {:induction false} CountOnce(rs: seq<Record>, q: Question)
    requires forall i, j :: 0 <= i < j < |rs| ==> rs[i].question != rs[j].question
    ensures CountFor(rs, q) == if exists i :: 0 <= i < |rs| && rs[i].question == q then 1 else 0
  {
    if rs != [] {
      var front := rs[..|rs| - 1];
      CountOnce(front, q);
      if i :| 0 <= i < |front| && front[i].question == q {
        assert rs[i].question == q;
      }
      if i :| 0 <= i < |rs| && rs[i].question == q {
        assert i == |front| || front[i].question == q;
      }
    }
  }

  lemma LoadedCount(loaded: Loaded, q: Question)
    requires loaded.Valid()
    ensures CountFor(loaded.Values(), q) == if q in loaded.records then 1 else 0
  {
    var rs := loaded.Values();
    forall i | 0 <= i < |rs| ensures rs[i].question == loaded.order[i] {
      assert loaded.order[i] in loaded.order;
    }
    CountOnce(rs, q);
    if q in loaded.records {
      var i :| 0 <= i < |loaded.order| && loaded.order[i] == q;
      assert rs[i].question == q;
    }
  }

  lemma LinesForNext(lines: seq<Line>, p: Provider, expected: map<Question, Fingerprint>, cases: seq<TestCase>, q: Question)
    requires cases != []
    ensures var last := cases[|cases| - 1];
            LinesFor(NewLines(lines, p, expected, cases), q)
            == LinesFor(NewLines(lines, p, expected, cases[..|cases| - 1]), q)
               + if last.question == q && !DoneIn(lines, expected, q) then 1 else 0
  {
    var n := |cases| - 1;
    var news := NewLines(lines, p, expected, cases[..n]);
    NewLinesNext(lines, p, expected, cases, n);
    assert cases[..n + 1] == cases;
    var l := Written(Evaluate(p, cases[n], StampOf(expected, cases[n])));
    assert (news + [l])[..|news|] == news;
    EvaluatedFor(p, cases[n], StampOf(expected, cases[n]));
  }

  lemma {:induction false} NoLineForOthers(lines: seq<Line>, p: Provider, expected: map<Question, Fingerprint>,
                                           cases: seq<TestCase>, q: Question)
    requires forall i :: 0 <= i < |cases| ==> cases[i].question != q
    ensures LinesFor(NewLines(lines, p, expected, cases), q) == 0
  {
    if cases != [] {
      NoLineForOthers(lines, p, expected, cases[..|cases| - 1], q);
      LinesForNext(lines, p, expected, cases, q);
    }
  }

  /** Every selected case was done before, or gets exactly one new line. */
  lemma {:induction false} EachCaseOnce(lines: seq<Line>, p: Provider, expected: map<Question, Fingerprint>,
                                        cases: seq<TestCase>, i: nat)
    requires Distinct(cases) && i < |cases|
    ensures LinesFor(NewLines(lines, p, expected, cases), cases[i].question)
            == if DoneIn(lines, expected, cases[i].question) then 0 else 1
  {
    var front, q := cases[..|cases| - 1], cases[i].question;
    LinesForNext(lines, p, expected, cases, q);
    if i < |front| {
      EachCaseOnce(lines, p, expected, front, i);
    } else {
      NoLineForOthers(lines, p, expected, front, q);
    }
  }

  /** A finished run over distinct questions puts every selected case in exactly one of records and skipped,
      exactly once. */
  lemma EachCaseInOnePlace(start: File, p: Provider, cases: seq<TestCase>, loaded: Loaded, i: nat)
    requires Distinct(cases) && i < |cases| && loaded.Valid()
    requires forall q :: q in loaded.records <==> DoneIn(start.lines, Expected(cases), q)
    ensures var lines, q := RunLines(start.lines, p, cases), cases[i].question;
            CountFor(loaded.Values() + DoneRecords(lines), q) + CountFor(SkippedRecords(lines), q) == 1
  {
    var lines, q := RunLines(start.lines, p, cases), cases[i].question;
    CountConcat(loaded.Values(), DoneRecords(lines), q);
    LoadedCount(loaded, q);
    SortedCount(lines, q);
    EachCaseOnce(start.lines, p, Expected(cases), cases, i);
  }

  // ---------------------------------------------------------------- interrupted and resumed runs

  /** What else of the next line reached the file: nothing, part of it, or all of it but its newline. */
  datatype Tail = NoTail | Part | NoNewline

  /** One run of any selection, of which only the first `survives` appended lines reached the file whole. */
  datatype Session = Session(cases: seq<TestCase>, provider: Provider, wipe: bool, survives: nat, tail: Tail)

  /** Some of the next line reached the file, but not all of it. */
  ghost predicate Cut(lines: seq<Line>, s: Session) { s.survives < |lines| && !s.tail.NoTail? }

  /** What of a run's lines can be read in the file afterwards. */
  ghost function Reached(lines: seq<Line>, s: Session): seq<Line> {
    var n := Min(s.survives, |lines|);
    if !Cut(lines, s) then lines[..n]
    else if s.tail.Part? then lines[..n] + [Torn]
    else lines[..n + 1]
  }

  ghost function Leaves(file: File, s: Session): File {
    if !s.wipe && Torn in file.lines then file
    else
      var start := if s.wipe then EMPTY else file;
      var lines := RunLines(start.lines, s.provider, s.cases);
      var r := Extended(start, Reached(lines, s));
      if Cut(lines, s) then r.(open := true) else r
  }

  /** What a run leaves: nothing new behind a line that does not parse; all its lines, as RunCases does, unless it was
      cut short; then the whole lines and, as an open line, what else was written. */
  lemma LeavesMeans(file: File, s: Session)
    ensures !s.wipe && Torn in file.lines ==> Leaves(file, s) == file
    ensures s.wipe || Torn !in file.lines ==>
              var start := if s.wipe then File([], false) else file;
              var lines, n := RunLines(start.lines, s.provider, s.cases), s.survives;
              && (n >= |lines| ==> Leaves(file, s) == Extended(start, lines))
              && (n < |lines| && s.tail == NoTail ==> Leaves(file, s) == Extended(start, lines[..n]))
              && (n < |lines| && s.tail == Part ==> Leaves(file, s) == File(Extended(start, lines[..n] + [Torn]).lines, true))
              && (n < |lines| && s.tail == NoNewline ==> Leaves(file, s) == File(Extended(start, lines[..n + 1]).lines, true))
  {
    var lines := RunLines(if s.wipe then [] else file.lines, s.provider, s.cases);
    assert lines[..|lines|] == lines;
  }

  ghost function After(file: File, sessions: seq<Session>): File {
    if sessions == [] then file else Leaves(After(file, sessions[..|sessions| - 1]), sessions[|sessions| - 1])
  }

  predicate SameSuccess(a: Line, b: Line) {
    a.Written? && b.Written? && a.record.status.Done? && b.record.status.Done?
    && a.record.question == b.record.question && a.record.fingerprint == b.record.fingerprint
  }

  ghost predicate AtMostOneSuccess(lines: seq<Line>) {
    forall i, j :: 0 <= i < j < |lines| ==> !SameSuccess(lines[i], lines[j])
  }

  /** Every new line is the record of a selected case that was not done. */
  lemma {:induction false} NewLineIsOf(lines: seq<Line>, p: Provider, expected: map<Question, Fingerprint>, cases: seq<TestCase>, l: Line)
    ensures l in NewLines(lines, p, expected, cases) <==>
            exists i :: 0 <= i < |cases| && !DoneIn(lines, expected, cases[i].question)
                        && l == Written(Evaluate(p, cases[i], StampOf(expected, cases[i])))
  {
    if cases != [] {
      var front := cases[..|cases| - 1];
      NewLineIsOf(lines, p, expected, front, l);
      assert forall i :: 0 <= i < |front| ==> front[i] == cases[i];
    }
  }

  lemma {:induction false} NewLinesDistinct(lines: seq<Line>, p: Provider, expected: map<Question, Fingerprint>, cases: seq<TestCase>)
    requires Distinct(cases)
    ensures AtMostOneSuccess(NewLines(lines, p, expected, cases))
  {
    if cases != [] {
      var front, last := cases[..|cases| - 1], cases[|cases| - 1];
      NewLinesDistinct(lines, p, expected, front);
      var news := NewLines(lines, p, expected, front);
      forall i | 0 <= i < |news| ensures !SameSuccess(news[i], Written(Evaluate(p, last, StampOf(expected, last)))) {
        assert news[i] in news;
        NewLineIsOf(lines, p, expected, front, news[i]);
        var k :| 0 <= k < |front| && news[i] == Written(Evaluate(p, front[k], StampOf(expected, front[k])));
        assert cases[k] == front[k];
      }
    }
  }

  /** What a run would write never repeats a success of the file. */
  lemma RunLinesAreNew(lines: seq<Line>, p: Provider, cases: seq<TestCase>)
    requires Distinct(cases) && AtMostOneSuccess(lines)
    ensures AtMostOneSuccess(lines + RunLines(lines, p, cases))
  {
    var expected, news := Expected(cases), RunLines(lines, p, cases);
    NewLinesDistinct(lines, p, expected, cases);
    forall i, j | 0 <= i < |lines| && 0 <= j < |news| ensures !SameSuccess(lines[i], news[j]) {
      assert news[j] in news;
      NewLineIsOf(lines, p, expected, cases, news[j]);
      var k :| 0 <= k < |cases| && !DoneIn(lines, expected, cases[k].question)
               && news[j] == Written(Evaluate(p, cases[k], StampOf(expected, cases[k])));
      ExpectedHas(cases, k);
      assert !OkLine(lines[i], cases[k].question, expected[cases[k].question]);
    }
  }

  /** Gluing lines together only loses successes. */
  lemma ExtendedKeepsOne(file: File, lines: seq<Line>)
    requires AtMostOneSuccess(file.lines + lines)
    ensures AtMostOneSuccess(Extended(file, lines).lines)
  {
    var all, r, n := file.lines + lines, Extended(file, lines).lines, |file.lines| - 1;
    if lines == [] {
      assert all == file.lines;
    } else if file.open && file.lines != [] {
      forall i, j | 0 <= i < j < |r| ensures !SameSuccess(r[i], r[j]) {
        assert i < n ==> r[i] == all[i];
        assert j < n ==> r[j] == all[j];
        assert i >= n && r[i].Written? ==> r[i] == all[i + 1];
        assert j >= n && r[j].Written? ==> r[j] == all[j + 1];
      }
    }
  }

  lemma ReachedKeepsOne(before: seq<Line>, lines: seq<Line>, s: Session)
    requires AtMostOneSuccess(before + lines)
    ensures AtMostOneSuccess(before + Reached(lines, s))
  {
    var all, part := before + lines, before + Reached(lines, s);
    assert forall i :: 0 <= i < |part| ==> part[i].Torn? || (i < |all| && part[i] == all[i]);
  }

  /** No run, however it ends, records a second success for the same question and fingerprint. */
  lemma RunKeepsOneSuccess(file: File, s: Session)
    requires Distinct(s.cases) && AtMostOneSuccess(file.lines)
    ensures AtMostOneSuccess(Leaves(file, s).lines)
  {
    var start := if s.wipe then EMPTY else file;
    var lines := RunLines(start.lines, s.provider, s.cases);
    RunLinesAreNew(start.lines, s.provider, s.cases);
    ReachedKeepsOne(start.lines, lines, s);
    ExtendedKeepsOne(start, Reached(lines, s));
  }

  /** Over any history of runs - other selections, other providers, other fingerprints, interruptions
      anywhere - each question and fingerprint has at most one OK line. */
  lemma {:induction false} HistoryKeepsOneSuccess(sessions: seq<Session>)
    requires forall i :: 0 <= i < |sessions| ==> Distinct(sessions[i].cases)
    ensures AtMostOneSuccess(After(EMPTY, sessions).lines)
  {
    if sessions != [] {
      HistoryKeepsOneSuccess(sessions[..|sessions| - 1]);
      RunKeepsOneSuccess(After(EMPTY, sessions[..|sessions| - 1]), sessions[|sessions| - 1]);
    }
  }

  /** A line one provider answers for. */
  ghost predicate Own(l: Line, p: Provider) {
    l.Torn? || (l.Written? && l.record == Evaluate(p, TestCase(l.record.question, l.record.fingerprint), l.record.fingerprint))
  }

  /** With one provider, a history only ever records what that provider answers. */
  ghost predicate Faithful(lines: seq<Line>, p: Provider) {
    forall i :: 0 <= i < |lines| ==> Own(lines[i], p)
  }

  lemma EvaluatedFor(p: Provider, tc: TestCase, stamp: Fingerprint)
    ensures Evaluate(p, tc, stamp).question == tc.question && Evaluate(p, tc, stamp).fingerprint == stamp
    ensures stamp == tc.fingerprint ==> TestCase(Evaluate(p, tc, stamp).question, Evaluate(p, tc, stamp).fingerprint) == tc
  {
  }

  lemma RunLineIsOwn(lines: seq<Line>, p: Provider, cases: seq<TestCase>, l: Line)
    requires Distinct(cases) && l in RunLines(lines, p, cases)
    ensures l.Written? && Own(l, p)
  {
    var expected := Expected(cases);
    NewLineIsOf(lines, p, expected, cases, l);
    var k :| 0 <= k < |cases| && l == Written(Evaluate(p, cases[k], StampOf(expected, cases[k])));
    ExpectedHas(cases, k);
    assert StampOf(expected, cases[k]) == cases[k].fingerprint;
    EvaluatedFor(p, cases[k], cases[k].fingerprint);
  }

  lemma RunLinesAreOwn(lines: seq<Line>, p: Provider, cases: seq<TestCase>)
    requires Distinct(cases)
    ensures Faithful(RunLines(lines, p, cases), p) && Torn !in RunLines(lines, p, cases)
  {
    forall l | l in RunLines(lines, p, cases) ensures Own(l, p) && !l.Torn? {
      RunLineIsOwn(lines, p, cases, l);
    }
  }

  lemma ExtendedIsOwn(file: File, lines: seq<Line>, p: Provider)
    requires Faithful(file.lines, p) && Faithful(lines, p)
    ensures Faithful(Extended(file, lines).lines, p)
  {
    var r, n := Extended(file, lines).lines, |file.lines| - 1;
    if lines != [] && file.open && file.lines != [] {
      forall i | 0 <= i < |r| ensures Own(r[i], p) {
        assert i < n ==> r[i] == file.lines[i];
        assert i > n ==> r[i] == lines[i - n];
      }
    }
  }

  lemma {:induction false} HistoryIsFaithful(sessions: seq<Session>, p: Provider)
    requires forall i :: 0 <= i < |sessions| ==> sessions[i].provider == p && Distinct(sessions[i].cases)
    ensures Faithful(After(EMPTY, sessions).lines, p)
  {
    if sessions != [] {
      var file, s := After(EMPTY, sessions[..|sessions| - 1]), sessions[|sessions| - 1];
      HistoryIsFaithful(sessions[..|sessions| - 1], p);
      var start := if s.wipe then EMPTY else file;
      var lines := RunLines(start.lines, p, s.cases);
      RunLinesAreOwn(start.lines, p, s.cases);
      assert forall l :: l in Reached(lines, s) ==> l.Torn? || l in lines;
      ExtendedIsOwn(start, Reached(lines, s), p);
    }
  }

  /** A finished run leaves a file the next run can load if and only if it found no line without its newline,
      or had nothing to write: a complete record without its newline reads well once, and is destroyed
      together with the first record written after it. */
  lemma {:induction false} LoadableAgainIff(sessions: seq<Session>, p: Provider, cases: seq<TestCase>)
    requires forall k :: 0 <= k < |sessions| ==> sessions[k].provider == p && Distinct(sessions[k].cases)
    requires Distinct(cases) && Torn !in After(EMPTY, sessions).lines
    ensures var file := After(EMPTY, sessions);
            var lines := RunLines(file.lines, p, cases);
            Torn !in Extended(file, lines).lines <==> !file.open || lines == []
  {
    var file := After(EMPTY, sessions);
    var lines := RunLines(file.lines, p, cases);
    HistoryIsFaithful(sessions, p);
    OpenHasALine(sessions);
    RunLinesAreOwn(file.lines, p, cases);
    if file.open && lines != [] {
      var n := |file.lines| - 1;
      assert Own(file.lines[n], p);
      assert Extended(file, lines).lines[n] == Torn;
    } else {
      assert forall l :: l in file.lines + lines <==> l in file.lines || l in lines;
    }
  }

  lemma {:induction false} OpenHasALine(sessions: seq<Session>)
    ensures After(EMPTY, sessions).open ==> After(EMPTY, sessions).lines != []
  {
    if sessions != [] { OpenHasALine(sessions[..|sessions| - 1]); }
  }

  /** For a deterministic provider, whatever was interrupted and resumed before, a run that finishes leaves
      exactly the successes of one uninterrupted run over the same cases -- whenever it leaves a file that can
      be loaded at all (LoadableAgainIff says when). */
  lemma {:induction false} ResumedEqualsUninterrupted(sessions: seq<Session>, p: Provider, cases: seq<TestCase>, i: nat)
    requires forall k :: 0 <= k < |sessions| ==> sessions[k].provider == p && Distinct(sessions[k].cases)
    requires Distinct(cases) && i < |cases|
    requires var file := After(EMPTY, sessions);
             Torn !in file.lines && Torn !in Extended(file, RunLines(file.lines, p, cases)).lines
    ensures var file := After(EMPTY, sessions);
            var resumed := Extended(file, RunLines(file.lines, p, cases)).lines;
            var q, stamp := cases[i].question, cases[i].fingerprint;
            forall l :: l in resumed && OkLine(l, q, stamp) <==> l in RunLines([], p, cases) && OkLine(l, q, stamp)
  {
    var file := After(EMPTY, sessions);
    var lines := RunLines(file.lines, p, cases);
    LoadableAgainIff(sessions, p, cases);
    HistoryIsFaithful(sessions, p);
    ExpectedHas(cases, i);
    assert forall l :: l in Extended(file, lines).lines <==> l in file.lines || l in lines;
    var q, stamp, own := cases[i].question, cases[i].fingerprint, Written(Evaluate(p, cases[i], cases[i].fingerprint));
    assert !DoneIn([], Expected(cases), q);
    forall l | OkLine(l, q, stamp) ensures l in file.lines || l in lines <==> l in RunLines([], p, cases) {
      OnlyOwnSuccess(file.lines, p, cases, i, l);
      OnlyOwnSuccess([], p, cases, i, l);
      if l == own && DoneIn(file.lines, Expected(cases), q) {
        var k :| 0 <= k < |file.lines| && OkLine(file.lines[k], q, stamp);
        assert Own(file.lines[k], p);
      }
      if l in file.lines {
        assert Own(l, p);
      }
    }
  }

  /** The only line a run can write for a case is the provider's own answer. */
  lemma OnlyOwnSuccess(lines: seq<Line>, p: Provider, cases: seq<TestCase>, i: nat, l: Line)
    requires Distinct(cases) && i < |cases| && l.Written? && l.record.question == cases[i].question
    ensures l in RunLines(lines, p, cases) <==>
              l == Written(Evaluate(p, cases[i], cases[i].fingerprint)) && !DoneIn(lines, Expected(cases), cases[i].question)
  {
    NewLineIsOf(lines, p, Expected(cases), cases, l);
    forall k | 0 <= k < |cases|
      ensures l == Written(Evaluate(p, cases[k], StampOf(Expected(cases), cases[k]))) ==> k == i
    {
      EvaluatedFor(p, cases[k], StampOf(Expected(cases), cases[k]));
    }
    ExpectedHas(cases, i);
    assert StampOf(Expected(cases), cases[i]) == cases[i].fingerprint;
  }

  /** A line torn by a crash stops every later run before it evaluates anything, until the file is wiped. */
  lemma {:induction false} TornLineBlocks(file: File, sessions: seq<Session>)
    requires Torn in file.lines && forall i :: 0 <= i < |sessions| ==> !sessions[i].wipe
    ensures After(file, sessions) == file
  {
    if sessions != [] {
      TornLineBlocks(file, sessions[..|sessions| - 1]);
    }
  }
}
