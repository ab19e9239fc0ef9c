/** One bilingual replicate (scripts/run_bilingual_evaluation_campaign.py, _run_replicate, whose two
    checkpoint loops scripts/run_evidence_contract_v3_campaign.py shares): all generations, then all
    judgements, each appended to its checkpoint file as soon as the ledger has the response. The process may die
    after any character it writes, and while the ledger is locked. */
module Replicates {
  import opened Outcomes
  import opened Jsonl
  import opened RL = RequestLedger
  import opened TextLines
  import opened ReplicateStates

  predicate MarkFits(marks: seq<nat>, t: seq<World>, l: seq<Books>, k: nat)
    requires k < |marks| && k < |t|
  {
    marks[k] < |l| && l[marks[k]] == t[k].books && (k > 0 ==> marks[k - 1] <= marks[k])
  }

  /** Each mark says which state of the ledger's history a state is about. */
  ghost predicate LinkedTo(marks: seq<nat>, t: seq<World>, l: seq<Books>) {
    |marks| == |t| && forall k :: 0 <= k < |t| ==> MarkFits(marks, t, l, k)
  }

  lemma LinkedNext(marks: seq<nat>, t: seq<World>, l: seq<Books>, mark: nat, w: World)
    requires LinkedTo(marks, t, l) && mark < |l| && l[mark] == w.books && (t != [] ==> marks[|marks| - 1] <= mark)
    ensures LinkedTo(marks + [mark], t + [w], l)
  {
    var m, u := marks + [mark], t + [w];
    forall k | 0 <= k < |u| ensures MarkFits(m, u, l, k) {
      assert k < |t| ==> MarkFits(marks, t, l, k);
    }
  }

  lemma LinkedMore(marks: seq<nat>, t: seq<World>, l: seq<Books>, more: seq<Books>)
    requires LinkedTo(marks, t, l) && l <= more
    ensures LinkedTo(marks, t, more)
  {
    forall k | 0 <= k < |t| ensures MarkFits(marks, t, more, k) {
      assert MarkFits(marks, t, l, k);
    }
  }

  /** Cutting a history, and the ledger's history behind its last mark, leaves it linked. */
  lemma LinkedPrefix(marks: seq<nat>, t: seq<World>, l: seq<Books>, n: nat)
    requires LinkedTo(marks, t, l) && 0 < n <= |t|
    ensures marks[n - 1] < |l| && l[marks[n - 1]] == t[n - 1].books
    ensures LinkedTo(marks[..n], t[..n], l[..marks[n - 1] + 1])
  {
    assert MarkFits(marks, t, l, n - 1);
    var m, u, v := marks[..n], t[..n], l[..marks[n - 1] + 1];
    forall k | 0 <= k < n ensures MarkFits(m, u, v, k) {
      assert MarkFits(marks, t, l, k);
      MarksRise(marks, t, l, k, n - 1);
    }
  }

  /** Cutting a history behind an earlier end of it leaves the ledger's history of that time untouched. */
  lemma CutKeepsLedger(m: seq<nat>, t: seq<World>, l: seq<Books>, marks: seq<nat>, trace: seq<World>, ledger: seq<Books>, k: nat)
    requires LinkedTo(m, t, l) && LinkedTo(marks, trace, ledger) && m <= marks && t <= trace && l <= ledger
    requires t != [] && m[|m| - 1] == |l| - 1 && |t| <= k <= |trace|
    ensures |marks| == |trace| && marks[k - 1] < |ledger|
    ensures t <= trace[..k] && m <= marks[..k] && l <= ledger[..marks[k - 1] + 1]
  {
    assert MarkFits(marks, trace, ledger, k - 1) && marks[|t| - 1] == m[|t| - 1];
    MarksRise(marks, trace, ledger, |t| - 1, k - 1);
  }

  lemma {:induction false} MarksRise(marks: seq<nat>, t: seq<World>, l: seq<Books>, j: nat, k: nat)
    requires LinkedTo(marks, t, l) && j <= k < |t|
    ensures marks[j] <= marks[k]
  {
    if j < k {
      MarksRise(marks, t, l, j, k - 1);
      assert MarkFits(marks, t, l, k);
    }
  }

  class Replicate {
    const setup: Setup
    const ledger: Ledger
    var gens: Journal<GenRow>
    var judges: Journal<JudgeRow>
    /** Every durable state so far, and how much of the ledger's own history each of them has seen. */
    var trace: seq<World>
    var marks: seq<nat>

    function Now(): World reads this, ledger { World(ledger.books, gens, judges) }

    ghost predicate Linked() reads this, ledger { trace != [] && LinkedTo(marks, trace, ledger.trace) }

    /** A sound history, of which the ledger may have moved on. */
    ghost predicate Behind() reads this, ledger {
      && setup.Valid() && ledger.Valid() && ledger.limit == setup.limit && ledger.format == setup.ledger
      && Legal(trace, setup) && Linked()
      && trace[|trace| - 1].gens == gens && trace[|trace| - 1].judges == judges
    }

    ghost predicate Good() reads this, ledger {
      Behind() && marks[|marks| - 1] == |ledger.trace| - 1
    }

    /** A replicate starts on any ledger, whoever used it before. */
    constructor (setup: Setup, ledger: Ledger)
      requires setup.Valid() && ledger.Valid() && ledger.limit == setup.limit && ledger.format == setup.ledger
      ensures this.setup == setup && this.ledger == ledger && Good() && gens.rows == [] && judges.rows == []
    {
      this.setup, this.ledger := setup, ledger;
      gens, judges := Journal([], File([], false)), Journal([], File([], false));
      marks := [|ledger.trace| - 1];
      trace := [World(ledger.books, Journal([], File([], false)), Journal([], File([], false)))];
      new;
      ledger.BooksAreSound();
      assert RowsOf<GenRow>([]) == [] && RowsOf<JudgeRow>([]) == [];
      LegalNext([], trace[0], setup);
      assert [] + [trace[0]] == trace;
      assert MarkFits(marks, trace, ledger.trace, 0);
    }

    lemma WorldIsSound()
      requires Good()
      ensures trace[|trace| - 1] == Now() && SoundWorld(Now(), setup)
    {
      assert MarkFits(marks, trace, ledger.trace, |trace| - 1);
      assert WorldAt(trace, |trace| - 1) == Now();
    }

    /** Record a durable state in the history. */
    method Observe(w: World, mark: nat)
      requires setup.Valid() && ledger.Valid() && ledger.limit == setup.limit && ledger.format == setup.ledger
      requires Legal(trace, setup) && Linked() && SoundWorld(w, setup) && Grows(trace[|trace| - 1], w, setup)
      requires w.gens == gens && w.judges == judges
      requires marks[|marks| - 1] <= mark < |ledger.trace| && ledger.trace[mark] == w.books
      modifies this`trace, this`marks
      ensures Behind() && trace == old(trace) + [w] && marks == old(marks) + [mark]
    {
      LegalNext(trace, w, setup);
      LinkedNext(marks, trace, ledger.trace, mark, w);
      trace, marks := trace + [w], marks + [mark];
    }

    /** Every state the ledger went through since is one of this replicate's. */
    method CatchUp()
      requires Behind()
      modifies this`trace, this`marks
      ensures Good() && old(trace) <= trace && old(marks) <= marks
      ensures old(Good()) ==> trace == old(trace)
    {
      var n := marks[|marks| - 1];
      while n < |ledger.trace| - 1
        invariant Behind() && n == marks[|marks| - 1] && old(trace) <= trace && old(marks) <= marks
        invariant old(Good()) ==> trace == old(trace)
      {
        n := n + 1;
        See(n);
      }
      assert MarkFits(marks, trace, ledger.trace, |trace| - 1);
    }

    method See(n: nat)
      requires Behind() && marks[|marks| - 1] + 1 == n < |ledger.trace|
      modifies this`trace, this`marks
      ensures Behind() && old(trace) <= trace && old(marks) <= marks && marks[|marks| - 1] == n
    {
      LedgerMoved(trace[|trace| - 1], n);
      Observe(World(ledger.trace[n], gens, judges), n);
    }

    lemma LedgerMoved(w: World, n: nat)
      requires Behind() && w == trace[|trace| - 1] && marks[|marks| - 1] + 1 == n < |ledger.trace|
      ensures SoundWorld(World(ledger.trace[n], gens, judges), setup) && Grows(w, World(ledger.trace[n], gens, judges), setup)
    {
      hide Sound, Faithful, Content, SoundStory, RowsSound, SentSound;
      assert WorldAt(trace, |trace| - 1) == w;
      assert MarkFits(marks, trace, ledger.trace, |trace| - 1);
      assert StateAt(ledger.trace, n) == ledger.trace[n] && ledger.trace[n - 1] == w.books;
      SoundWithMoreRows(StoryOf(w), ledger.trace[n].journal.rows, setup);
      assert StoryOf(World(ledger.trace[n], gens, judges)) == StoryOf(w).(rows := ledger.trace[n].journal.rows);
    }

    method Request(op: Operation, sha: Sha, reply: nat -> Reply) returns (r: Result<Response>)
      requires Good()
      modifies this`trace, this`marks, ledger
      ensures Good() && Continues(old(trace), old(marks), old(ledger.trace))
      ensures old(ledger.Rows()) <= ledger.Rows() && ledger.books.locked == old(ledger.books).locked
      ensures r.Ok? ==> PhaseOf(ledger.Rows(), op) == Finished(r.value, sha)
      ensures !Usable(setup.ledger, old(ledger.books)) ==> r.Raised? && ledger.books == old(ledger.books)
      ensures old(ledger.books).locked ==> trace == old(trace)
      ensures r.Raised? ==> Blocked() || !StoredFor(ledger.Rows(), op, sha)
      ensures Usable(setup.ledger, old(ledger.books)) && StoredFor(old(ledger.Rows()), op, sha) ==>
                r.Ok? && ledger.books == old(ledger.books)
    {
      ghost var before := ledger.trace;
      r := ledger.Call(op, sha, reply);
      LinkedMore(marks, trace, before, ledger.trace);
      CatchUp();
    }

    /** The ledger refuses every call. */
    ghost predicate Blocked() reads this, ledger { !Usable(setup.ledger, ledger.books) }

    /** These histories were only extended. */
    ghost predicate Continues(t: seq<World>, m: seq<nat>, l: seq<Books>) reads this, ledger {
      t <= trace && m <= marks && l <= ledger.trace
    }

    /** A new durable state in which only the checkpoint files differ. */
    method Note(w: World)
      requires Good() && w.books == ledger.books && SoundWorld(w, setup) && Grows(Now(), w, setup)
      modifies this
      ensures Good() && Now() == w && trace == old(trace) + [w] && old(marks) <= marks
    {
      hide Legal, SoundWorld, Grows, LinkedTo;
      WorldIsSound();
      gens, judges := w.gens, w.judges;
      Observe(w, |ledger.trace| - 1);
    }

    /** Write one generation row, character by character. */
    method WriteGen(g: GenRow)
      requires Good() && Writable(gens.file) && GoodGen(setup, ledger.Rows(), g) && !HasGen(gens.rows, g.caseId)
      modifies this
      ensures Good() && old(trace) <= trace && old(marks) <= marks
      ensures GenSpelled(setup, trace, |old(trace)|, old(Now()), g, |RowText(setup.gens, g)|)
      ensures Wrote(setup.gens, old(gens), gens, g)
      ensures Now() == old(Now()).(gens := Recorded(setup.gens, old(gens), g, |RowText(setup.gens, g)|))
    {
      hide Legal, SoundWorld, Grows, LinkedTo, SoundHistory, GoodGen, HasGen, Wrote;
      ghost var t := trace;
      var w, n := Now(), 0;
      WorldIsSound();
      assert ParsesBack(setup.gens, g);
      RecordedIsWrote(setup.gens, gens, g);
      while n < |RowText(setup.gens, g)|
        invariant n <= |RowText(setup.gens, g)| && Good() && t <= trace && old(marks) <= marks
        invariant GenSpelled(setup, trace, |t|, w, g, n) && Now() == w.(gens := Recorded(setup.gens, w.gens, g, n))
      {
        NextGenCharacter(w, g, n, setup);
        GenSpelledNext(setup, trace, |t|, w, g, n);
        Note(w.(gens := Recorded(setup.gens, w.gens, g, n + 1)));
        n := n + 1;
      }
    }

    /** Write one judgement, character by character. */
    method WriteJudge(j: JudgeRow)
      requires Good() && Writable(judges.file) && GoodJudge(setup, StoryOf(Now()), j) && !HasJudge(judges.rows, j.caseId)
      requires forall c :: c in setup.cases ==> HasGen(gens.rows, c)
      modifies this
      ensures Good() && old(trace) <= trace && old(marks) <= marks
      ensures JudgeSpelled(setup, trace, |old(trace)|, old(Now()), j, |RowText(setup.judges, j)|)
      ensures Wrote(setup.judges, old(judges), judges, j)
      ensures Now() == old(Now()).(judges := Recorded(setup.judges, old(judges), j, |RowText(setup.judges, j)|))
    {
      hide Legal, SoundWorld, Grows, LinkedTo, SoundHistory, GoodJudge, HasGen, HasJudge, Wrote;
      ghost var t := trace;
      var w, n := Now(), 0;
      WorldIsSound();
      assert ParsesBack(setup.judges, j);
      RecordedIsWrote(setup.judges, judges, j);
      while n < |RowText(setup.judges, j)|
        invariant n <= |RowText(setup.judges, j)| && Good() && t <= trace && old(marks) <= marks
        invariant JudgeSpelled(setup, trace, |t|, w, j, n) && Now() == w.(judges := Recorded(setup.judges, w.judges, j, n))
      {
        NextJudgeCharacter(w, j, n, setup);
        JudgeSpelledNext(setup, trace, |t|, w, j, n);
        Note(w.(judges := Recorded(setup.judges, w.judges, j, n + 1)));
        n := n + 1;
      }
    }

    /** The draft and, if the draft calls for it, its correction. The row is the one the ledger determines. */
    method Answer(c: CaseId, inputs: Inputs) returns (row: Option<GenRow>)
      requires Good()
      modifies this`trace, this`marks, ledger
      ensures Good() && Continues(old(trace), old(marks), old(ledger.trace))
      ensures old(ledger.Rows()) <= ledger.Rows() && ledger.books.locked == old(ledger.books).locked
      ensures old(ledger.books).locked ==> row.None? && trace == old(trace)
      ensures row.None? ==> Blocked() || DraftMissing(ledger.Rows(), setup.run, inputs, c)
      ensures row.Some? ==> !DraftMissing(ledger.Rows(), setup.run, inputs, c)
                            && row.value == GenRowOf(ledger.Rows(), setup.run, inputs, c)
                            && MadeFrom(ledger.Rows(), setup.run, inputs, c, row.value)
      ensures Usable(setup.ledger, old(ledger.books)) && !DraftMissing(old(ledger.Rows()), setup.run, inputs, c) ==>
                row.Some? && ledger.books == old(ledger.books)
    {
      hide Legal, SoundWorld, LinkedTo;
      var op := Operation(Generating, setup.run, c);
      var draft := Request(op, inputs.promptSha(c), inputs.reply);
      if draft.Raised? { return None; }
      var correction: Option<Response> := None;
      var sha := inputs.correctionSha(c, draft.value);
      if sha.Some? {
        ghost var rows := ledger.Rows();
        var corrected := Request(Operation(Correcting, setup.run, c), sha.value, inputs.reply);
        StillFinished(rows, op);
        if corrected.Raised? { return None; }
        correction := Some(corrected.value);
      }
      row := Some(GenRow(setup.run, inputs.binding, c, inputs.promptSha(c), draft.value, inputs.finish(c, draft.value, correction)));
      GenRowIsMade(ledger.Rows(), setup.run, inputs, c);
    }

    lemma StillFinished(rows: seq<Row>, op: Operation)
      requires Good() && rows <= ledger.Rows() && PhaseOf(rows, op).Finished?
      ensures PhaseOf(ledger.Rows(), op) == PhaseOf(rows, op)
    {
      ledger.BooksAreSound();
      FinishedStays(rows, ledger.Rows(), ledger.limit, op);
    }

    /** A bounded call is refused: the ledger does not read back, or the slots kept for retries are reached. */
    method OutOfBudget(bound: nat) returns (raised: bool)
      requires Good()
      ensures raised <==> !Readable(setup.ledger, ledger.books.journal) || Used(ledger.Rows()) >= bound
    {
      var rows := ledger.ReadRows();
      raised := rows.None? || Used(rows.value) >= bound;
    }

    /** One generation and its checkpoint row. What the ledger already holds is recorded without a request. */
    method Generate(c: CaseId, inputs: Inputs) returns (raised: bool)
      requires Good() && c in setup.cases && !HasGen(gens.rows, c) && Writable(gens.file)
      modifies this, ledger
      ensures Good() && Continues(old(trace), old(marks), old(ledger.trace)) && judges == old(judges)
      ensures Writable(gens.file) && ledger.books.locked == old(ledger.books).locked
      ensures old(ledger.books).locked ==> raised && trace == old(trace)
      ensures !Readable(setup.ledger, old(ledger.books).journal) || Used(old(ledger.Rows())) >= inputs.bound ==>
                raised && trace == old(trace)
      ensures raised ==> gens == old(gens)
      ensures raised ==> Blocked() || Used(ledger.Rows()) >= inputs.bound || DraftMissing(ledger.Rows(), setup.run, inputs, c)
      ensures !raised ==>
                && !DraftMissing(ledger.Rows(), setup.run, inputs, c)
                && Wrote(setup.gens, old(gens), gens, GenRowOf(ledger.Rows(), setup.run, inputs, c))
                && gens.rows != [] && gens.rows[..|gens.rows| - 1] == old(gens.rows)
                && MadeFrom(ledger.Rows(), setup.run, inputs, c, gens.rows[|gens.rows| - 1])
      ensures Usable(setup.ledger, old(ledger.books)) && Used(old(ledger.Rows())) < inputs.bound
              && !DraftMissing(old(ledger.Rows()), setup.run, inputs, c) ==>
                !raised && ledger.books == old(ledger.books)
    {
      hide Legal, SoundWorld, LinkedTo, SoundHistory, GenSpelled, Wrote, Recorded, HasGen, GoodGen, MadeFrom;
      raised := OutOfBudget(inputs.bound);
      if raised { return; }
      var row := Answer(c, inputs);
      if row.None? { return true; }
      GoodAnswer(row.value, inputs, c);
      ghost var before := gens;
      WriteGen(row.value);
      ClosedAfter(setup.gens, before, gens, row.value);
    }

    lemma GoodAnswer(g: GenRow, inputs: Inputs, c: CaseId)
      requires c in setup.cases && !DraftMissing(ledger.Rows(), setup.run, inputs, c)
      requires g == GenRowOf(ledger.Rows(), setup.run, inputs, c)
      ensures GoodGen(setup, ledger.Rows(), g) && g.caseId == c
    {
    }

    /** One judgement of the recorded answer, and its checkpoint row. */
    method Judge(c: CaseId, g: nat, inputs: Inputs) returns (raised: bool)
      requires Good() && c in setup.cases && !HasJudge(judges.rows, c) && Writable(judges.file)
      requires g < |gens.rows| && gens.rows[g].caseId == c
      requires forall x :: x in setup.cases ==> HasGen(gens.rows, x)
      modifies this, ledger
      ensures Good() && Continues(old(trace), old(marks), old(ledger.trace)) && gens == old(gens)
      ensures Writable(judges.file) && ledger.books.locked == old(ledger.books).locked
      ensures old(ledger.books).locked ==> raised && trace == old(trace)
      ensures !Readable(setup.ledger, old(ledger.books).journal) || Used(old(ledger.Rows())) >= inputs.bound ==>
                raised && trace == old(trace)
      ensures raised ==> judges == old(judges)
      ensures raised ==> Blocked() || Used(ledger.Rows()) >= inputs.bound
                         || ScoresMissing(ledger.Rows(), setup.run, gens.rows, inputs, c)
      ensures !raised ==>
                && StoredFor(ledger.Rows(), Operation(Judging, setup.run, c), inputs.judgeSha(c, gens.rows[g].answer))
                && Wrote(setup.judges, old(judges), judges, JudgeRowOf(ledger.Rows(), setup.run, inputs, c, gens.rows[g].answer))
                && judges.rows != [] && judges.rows[..|judges.rows| - 1] == old(judges.rows)
                && ScoredFrom(ledger.Rows(), setup.run, inputs, c, gens.rows[g].answer, judges.rows[|judges.rows| - 1])
      ensures Usable(setup.ledger, old(ledger.books)) && Used(old(ledger.Rows())) < inputs.bound
              && StoredFor(old(ledger.Rows()), Operation(Judging, setup.run, c), inputs.judgeSha(c, gens.rows[g].answer)) ==>
                !raised && ledger.books == old(ledger.books)
    {
      hide Legal, SoundWorld, LinkedTo, SoundHistory, JudgeSpelled, Wrote, Recorded, HasGen, HasJudge, GoodJudge;
      raised := OutOfBudget(inputs.bound);
      if raised { return; }
      var answer := gens.rows[g].answer;
      var sha := inputs.judgeSha(c, answer);
      var scores := Request(Operation(Judging, setup.run, c), sha, inputs.reply);
      if scores.Raised? { return true; }
      var row := JudgeRow(setup.run, c, sha, answer, scores.value);
      GoodScores(row, g);
      ghost var before := judges;
      WriteJudge(row);
      ClosedAfter(setup.judges, before, judges, row);
    }

    lemma GoodScores(j: JudgeRow, g: nat)
      requires j.run == setup.run && j.caseId in setup.cases && JudgeBacked(ledger.Rows(), j)
      requires g < |gens.rows| && gens.rows[g].caseId == j.caseId && gens.rows[g].answer == j.answer
      ensures GoodJudge(setup, StoryOf(Now()), j)
    {
      assert AboutRecorded(gens.rows, j);
    }

    method FindGen(c: CaseId) returns (found: Option<nat>)
      ensures found.Some? ==> found.value < |gens.rows| && gens.rows[found.value].caseId == c
      ensures found.None? <==> !HasGen(gens.rows, c)
    {
      for i := 0 to |gens.rows|
        invariant forall k :: 0 <= k < i ==> gens.rows[k].caseId != c
      {
        if gens.rows[i].caseId == c { return Some(i); }
      }
      found := None;
    }

    method FindJudge(c: CaseId) returns (found: Option<nat>)
      ensures found.Some? ==> found.value < |judges.rows| && judges.rows[found.value].caseId == c
      ensures found.None? <==> !HasJudge(judges.rows, c)
    {
      for i := 0 to |judges.rows|
        invariant forall k :: 0 <= k < i ==> judges.rows[k].caseId != c
      {
        if judges.rows[i].caseId == c { return Some(i); }
      }
      found := None;
    }

    lemma GenIsOwn(g: nat)
      requires Good() && g < |gens.rows|
      ensures gens.rows[g].run == setup.run
      ensures forall binding :: GenUnder(gens.rows, gens.rows[g].caseId, binding) <==> gens.rows[g].binding == binding
    {
      WorldIsSound();
    }

    lemma JudgeIsOwn(j: nat)
      requires Good() && j < |judges.rows|
      ensures judges.rows[j].run == setup.run
    {
      WorldIsSound();
      assert GoodJudge(setup, StoryOf(Now()), judges.rows[j]);
    }

    /** A row found for a case must be of this run and made from the present binding. */
    method GenerateUnlessDone(c: CaseId, inputs: Inputs) returns (raised: bool)
      requires Good() && c in setup.cases && Writable(gens.file)
      modifies this, ledger
      ensures Good() && Continues(old(trace), old(marks), old(ledger.trace)) && judges == old(judges)
      ensures Writable(gens.file) && ledger.books.locked == old(ledger.books).locked && old(gens.rows) <= gens.rows
      ensures old(ledger.books).locked ==> trace == old(trace) && gens == old(gens) && (raised <==> !GenUnder(gens.rows, c, inputs.binding))
      ensures !raised ==> GenUnder(gens.rows, c, inputs.binding)
      ensures raised ==> GenRefused(c, inputs)
      ensures ReadyNow(old(Now()), inputs) ==> !raised && ledger.books == old(ledger.books) && ReadyNow(Now(), inputs)
    {
      hide Legal, SoundWorld, LinkedTo, SoundHistory;
      ghost var before := Now();
      var found := FindGen(c);
      if found.Some? {
        GenIsOwn(found.value);
        return gens.rows[found.value].binding != inputs.binding || gens.rows[found.value].run != setup.run;
      }
      raised := Generate(c, inputs);
      assert !raised ==> gens.rows[|gens.rows| - 1].caseId == c;
      if ReadyNow(before, inputs) {
        ReadyWithGen(setup, inputs, StoryOf(before), c);
      }
    }

    /** The ledger answers, and holds every answer still lacking. */
    ghost predicate ReadyNow(w: World, inputs: Inputs) {
      Usable(setup.ledger, w.books) && AllReady(setup, inputs, StoryOf(w))
    }

    /** Why a generation of this case can be refused. */
    ghost predicate GenRefused(c: CaseId, inputs: Inputs) reads this, ledger {
      || Blocked() || Used(ledger.Rows()) >= inputs.bound
      || DraftMissing(ledger.Rows(), setup.run, inputs, c) || !OnlyUnder(gens.rows, c, inputs.binding)
    }

    /** Why a judgement of this case can be refused. */
    ghost predicate JudgeRefused(c: CaseId, inputs: Inputs) reads this, ledger {
      || Blocked() || Used(ledger.Rows()) >= inputs.bound
      || ScoresMissing(ledger.Rows(), setup.run, gens.rows, inputs, c)
    }

    /** The first loop. */
    method GenerateAll(inputs: Inputs) returns (raised: bool)
      requires Good() && Writable(gens.file)
      modifies this, ledger
      ensures Good() && Continues(old(trace), old(marks), old(ledger.trace)) && judges == old(judges)
      ensures ledger.books.locked == old(ledger.books).locked
      ensures old(ledger.books).locked ==> trace == old(trace) && gens == old(gens)
      ensures !raised ==> AllUnder(gens.rows, setup.cases, inputs.binding)
      ensures raised ==> exists k :: 0 <= k < |setup.cases| && GenRefused(setup.cases[k], inputs)
      ensures raised && old(ledger.books).locked ==> !AllUnder(gens.rows, setup.cases, inputs.binding)
      ensures ReadyNow(old(Now()), inputs) ==> !raised && ledger.books == old(ledger.books) && ReadyNow(Now(), inputs)
    {
      hide Legal, SoundWorld, LinkedTo, SoundHistory;
      for i := 0 to |setup.cases|
        invariant Good() && Continues(old(trace), old(marks), old(ledger.trace)) && judges == old(judges)
        invariant Writable(gens.file) && ledger.books.locked == old(ledger.books).locked
        invariant old(ledger.books).locked ==> trace == old(trace) && gens == old(gens)
        invariant AllUnder(gens.rows, setup.cases[..i], inputs.binding)
        invariant ReadyNow(old(Now()), inputs) ==> ledger.books == old(ledger.books) && ReadyNow(Now(), inputs)
      {
        ghost var before := gens.rows;
        raised := GenerateUnlessDone(setup.cases[i], inputs);
        if raised { return; }
        MoreUnder(before, gens.rows, setup.cases, i, inputs.binding);
      }
      assert setup.cases[..|setup.cases|] == setup.cases;
      raised := false;
    }

    /** A row found for a case must be of this run. */
    method JudgeUnlessDone(c: CaseId, inputs: Inputs) returns (raised: bool)
      requires Good() && c in setup.cases && Writable(judges.file)
      requires forall x :: x in setup.cases ==> HasGen(gens.rows, x)
      modifies this, ledger
      ensures Good() && Continues(old(trace), old(marks), old(ledger.trace)) && gens == old(gens)
      ensures Writable(judges.file) && ledger.books.locked == old(ledger.books).locked && old(judges.rows) <= judges.rows
      ensures old(ledger.books).locked ==> trace == old(trace) && judges == old(judges) && (raised <==> !HasJudge(judges.rows, c))
      ensures !raised ==> HasJudge(judges.rows, c)
      ensures raised ==> JudgeRefused(c, inputs)
      ensures ReadyNow(old(Now()), inputs) && CaseReady(setup, inputs, StoryOf(old(Now())), c) ==>
                !raised && ledger.books == old(ledger.books) && ReadyNow(Now(), inputs)
    {
      hide Legal, SoundWorld, LinkedTo, SoundHistory;
      ghost var before := Now();
      var done := FindJudge(c);
      if done.Some? {
        JudgeIsOwn(done.value);
        return judges.rows[done.value].run != setup.run;
      }
      var g := FindGen(c);
      raised := Judge(c, g.value, inputs);
      assert !raised ==> judges.rows[|judges.rows| - 1].caseId == c;
      if !raised && ReadyNow(before, inputs) {
        ReadyWithJudge(setup, inputs, StoryOf(before), judges.rows[|judges.rows| - 1]);
      }
    }

    /** The second loop. */
    method JudgeAll(inputs: Inputs) returns (raised: bool)
      requires Good() && Writable(judges.file) && forall x :: x in setup.cases ==> HasGen(gens.rows, x)
      modifies this, ledger
      ensures Good() && Continues(old(trace), old(marks), old(ledger.trace)) && gens == old(gens)
      ensures ledger.books.locked == old(ledger.books).locked
      ensures old(ledger.books).locked ==> trace == old(trace) && judges == old(judges)
      ensures !raised ==> AllJudged(judges.rows, setup.cases)
      ensures raised ==> exists k :: 0 <= k < |setup.cases| && JudgeRefused(setup.cases[k], inputs)
      ensures raised && old(ledger.books).locked ==> !AllJudged(judges.rows, setup.cases)
      ensures ReadyNow(old(Now()), inputs) ==> !raised && ledger.books == old(ledger.books)
    {
      hide Legal, SoundWorld, LinkedTo, SoundHistory;
      for i := 0 to |setup.cases|
        invariant Good() && Continues(old(trace), old(marks), old(ledger.trace)) && gens == old(gens)
        invariant Writable(judges.file) && ledger.books.locked == old(ledger.books).locked
        invariant old(ledger.books).locked ==> trace == old(trace) && judges == old(judges)
        invariant AllJudged(judges.rows, setup.cases[..i])
        invariant ReadyNow(old(Now()), inputs) ==> ledger.books == old(ledger.books) && ReadyNow(Now(), inputs)
      {
        ghost var before := judges.rows;
        raised := JudgeUnlessDone(setup.cases[i], inputs);
        if raised { return; }
        MoreJudged(before, judges.rows, setup.cases, i);
      }
      assert setup.cases[..|setup.cases|] == setup.cases;
      raised := false;
    }

    /** The checks on resuming. They raise exactly when one of the three files does not read back: a row cut short
        or glued to the next one, or a row that holds a character splitlines cuts at. */
    method CheckFiles() returns (raised: bool)
      requires Good()
      ensures raised <==> !AllReadable(Now(), setup)
    {
      WorldIsSound();
      OwnRowsAreAccepted(StoryOf(Now()), setup);
      hide Legal, SoundStory, LinkedTo, SoundHistory, KnownOnce;
      var generated := ReadAll(setup.gens, gens);
      if generated.None? { return true; }
      var unknownGen := ReadCheckpoint(GenIds(generated.value), setup.run, setup.cases);
      var judged := ReadAll(setup.judges, judges);
      if judged.None? { return true; }
      var unknownJudge := ReadCheckpoint(JudgeIds(judged.value), setup.run, setup.cases);
      var rows := ReadAll(setup.ledger, ledger.books.journal);
      if rows.None? { return true; }
      raised := AssertBacked(Claims(generated.value, judged.value), rows.value);
      assert !unknownGen && !unknownJudge;
    }

    lemma ReadableFilesAreWritable()
      requires Good() && AllReadable(Now(), setup)
      ensures Writable(gens.file) && Writable(judges.file)
    {
      WorldIsSound();
      ReadableIsWritable(setup.gens, gens);
      ReadableIsWritable(setup.judges, judges);
    }

    /** Resume: check the files, then both loops. With a file that does not read back nothing happens but the
        refusal. With the lock in the way nothing happens either, and the run is refused exactly when something is
        left to do. A run that does not raise leaves every case generated from the present binding, and judged;
        one that does was refused for a reason named here; and when the ledger answers and holds everything that
        is still lacking, the run completes without a request. */
    method Run(inputs: Inputs) returns (raised: bool)
      requires Good()
      modifies this, ledger
      ensures Good() && Continues(old(trace), old(marks), old(ledger.trace)) && ledger.books.locked == old(ledger.books).locked
      ensures !AllReadable(old(Now()), setup) ==> raised && trace == old(trace)
      ensures AllReadable(old(Now()), setup) && old(ledger.books).locked ==>
                trace == old(trace)
                && (raised <==> !(AllUnder(gens.rows, setup.cases, inputs.binding) && AllJudged(judges.rows, setup.cases)))
      ensures !raised ==> AllUnder(gens.rows, setup.cases, inputs.binding) && AllJudged(judges.rows, setup.cases)
      ensures raised && AllReadable(old(Now()), setup) ==>
                exists k :: 0 <= k < |setup.cases| && (GenRefused(setup.cases[k], inputs) || JudgeRefused(setup.cases[k], inputs))
      ensures AllReadable(old(Now()), setup) && ReadyNow(old(Now()), inputs) ==> !raised && ledger.books == old(ledger.books)
    {
      hide Legal, SoundWorld, LinkedTo, SoundHistory, AllReady;
      raised := CheckFiles();
      if raised { return; }
      ReadableFilesAreWritable();
      raised := GenerateAll(inputs);
      if raised { return; }
      UnderIsGen(gens.rows, setup.cases, inputs.binding);
      raised := JudgeAll(inputs);
    }

    /** The process dies: nothing after the first `k` durable states happened. */
    method Crash(k: nat)
      requires Good() && 0 < k <= |trace|
      modifies this, ledger
      ensures Good() && trace == old(trace)[..k] && marks == old(marks)[..k] && Now() == old(trace)[k - 1]
      ensures old(marks)[k - 1] < |old(ledger.trace)| && ledger.trace == old(ledger.trace)[..old(marks)[k - 1] + 1]
    {
      LinkedPrefix(marks, trace, ledger.trace, k);
      LegalPrefix(trace, k, setup);
      hide Legal, LinkedTo, SoundHistory;
      ledger.Rollback(marks[k - 1]);
      gens, judges := trace[k - 1].gens, trace[k - 1].judges;
      trace, marks := trace[..k], marks[..k];
    }

    /** The lock file is removed, by the call's own cleanup or by hand. */
    method Unlock()
      requires Good()
      modifies this`trace, this`marks, ledger
      ensures Good() && Continues(old(trace), old(marks), old(ledger.trace))
      ensures Now() == old(Now()).(books := old(ledger.books).(locked := false))
    {
      hide Legal, LinkedTo, SoundHistory;
      ghost var before := ledger.trace;
      ledger.SetLock(false);
      LinkedMore(marks, trace, before, ledger.trace);
      CatchUp();
    }

    /** One run in the life of a campaign: it may die in any durable state on the way, and the lock it leaves may
        be removed. */
    method Resume(attempt: Try)
      requires Behind()
      modifies this, ledger
      ensures Good() && Continues(old(trace), old(marks), old(ledger.trace))
    {
      hide Legal, LinkedTo, SoundHistory, AllReadable, AllUnder, AllJudged, GenRefused, JudgeRefused, ReadyNow;
      CatchUp();
      ghost var seen, marked, known := trace, marks, ledger.trace;
      var start := |trace|;
      var _ := Run(attempt.inputs);
      if attempt.survives.Some? {
        var k := start + Min(attempt.survives.value, |trace| - start);
        CutKeepsLedger(marked, seen, known, marks, trace, ledger.trace, k);
        Crash(k);
      }
      if attempt.unlocks { Unlock(); }
    }

    /** An answer whose row holds a character splitlines cuts at is recorded, and blocks every later resume. */
    method UncleanAnswerBlocksResume(c: CaseId, inputs: Inputs, later: Inputs) returns (recorded: bool, resumed: bool)
      requires Good() && AllReadable(Now(), setup) && !ledger.books.locked && Used(ledger.Rows()) < inputs.bound
      requires c in setup.cases && !HasGen(gens.rows, c) && !DraftMissing(ledger.Rows(), setup.run, inputs, c)
      requires !Clean(setup.gens.render(GenRowOf(ledger.Rows(), setup.run, inputs, c)))
      modifies this, ledger
      ensures Good() && recorded && !resumed
    {
      hide Legal, SoundWorld, LinkedTo, SoundHistory;
      ReadableFilesAreWritable();
      var failed := Generate(c, inputs);
      var refused := Run(later);
      recorded, resumed := !failed, !refused;
    }
  }

  lemma UnderIsGen(gens: seq<GenRow>, cases: seq<CaseId>, binding: string)
    requires AllUnder(gens, cases, binding)
    ensures forall c :: c in cases ==> HasGen(gens, c)
  {
    forall c | c in cases ensures HasGen(gens, c) {
      var k :| 0 <= k < |cases| && cases[k] == c;
      assert GenUnder(gens, cases[k], binding);
    }
  }

  /** One run: what it works with, the state after which it dies, if it does, and whether the lock is removed. */
  datatype Try = Try(inputs: Inputs, survives: Option<nat>, unlocks: bool)

  /** Any history of runs, with other inputs and replies each time and deaths after any character: every state ever
      reached is sound, and files and ledger only grew. */
  method History(replicate: Replicate, tries: seq<Try>)
    requires replicate.Good()
    modifies replicate, replicate.ledger
    ensures replicate.Good() && replicate.Continues(old(replicate.trace), old(replicate.marks), old(replicate.ledger.trace))
  {
    for i := 0 to |tries|
      invariant replicate.Good()
      invariant replicate.Continues(old(replicate.trace), old(replicate.marks), old(replicate.ledger.trace))
    {
      replicate.Resume(tries[i]);
    }
  }

  /** A run of one of two replicates, or a call the campaign makes on its own, for its calibration. */
  datatype Turn = First(attempt: Try) | Second(attempt: Try) | Elsewhere(op: Operation, sha: Sha, reply: nat -> Reply)

  /** Two replicates and the calibration on one ledger, in any order: each replicate's history stays sound, whatever
      the others record in between. */
  method SharedHistory(first: Replicate, second: Replicate, turns: seq<Turn>)
    requires first.Behind() && second.Behind() && first != second && first.ledger == second.ledger
    modifies first, second, first.ledger
    ensures first.Behind() && first.Continues(old(first.trace), old(first.marks), old(first.ledger.trace))
    ensures second.Behind() && second.Continues(old(second.trace), old(second.marks), old(first.ledger.trace))
  {
    for i := 0 to |turns|
      invariant first.Behind() && first.Continues(old(first.trace), old(first.marks), old(first.ledger.trace))
      invariant second.Behind() && second.Continues(old(second.trace), old(second.marks), old(first.ledger.trace))
    {
      match turns[i] {
        case First(attempt) => TakeTurn(first, second, attempt);
        case Second(attempt) => TakeTurn(second, first, attempt);
        case Elsewhere(op, sha, reply) => CallElsewhere(first, second, op, sha, reply);
      }
    }
  }

  method TakeTurn(active: Replicate, other: Replicate, attempt: Try)
    requires active.Behind() && other.Behind() && active != other && active.ledger == other.ledger
    modifies active, active.ledger
    ensures active.Behind() && active.Continues(old(active.trace), old(active.marks), old(active.ledger.trace))
    ensures other.Behind()
  {
    hide Legal, LinkedTo, SoundHistory;
    ghost var before := active.ledger.trace;
    active.Resume(attempt);
    LinkedMore(other.marks, other.trace, before, active.ledger.trace);
  }

  method CallElsewhere(first: Replicate, second: Replicate, op: Operation, sha: Sha, reply: nat -> Reply)
    requires first.Behind() && second.Behind() && first.ledger == second.ledger
    modifies first.ledger
    ensures first.Behind() && second.Behind() && old(first.ledger.trace) <= first.ledger.trace
  {
    hide Legal, LinkedTo, SoundHistory;
    ghost var before := first.ledger.trace;
    var _ := first.ledger.Call(op, sha, reply);
    LinkedMore(first.marks, first.trace, before, first.ledger.trace);
    LinkedMore(second.marks, second.trace, before, first.ledger.trace);
  }
}
