/** What a replicate of a campaign leaves behind (scripts/run_bilingual_evaluation_campaign.py and
    scripts/run_evidence_contract_v3_campaign.py): two checkpoint files beside the shared request ledger, what they
    hold in every durable state, and the checks made on them when a run resumes. */
module ReplicateStates {
  import opened Outcomes
  import opened Jsonl
  import opened RL = RequestLedger
  import opened TextLines

  type CaseId = string
  type Answer = string

  /** `run` names the replicate, `binding` the artifacts and settings a generation was made from. */
  datatype GenRow = GenRow(run: string, binding: string, caseId: CaseId, sha: Sha, draft: Response, answer: Answer)
  datatype JudgeRow = JudgeRow(run: string, caseId: CaseId, sha: Sha, answer: Answer, scores: Response)

  /** What was recorded: the rows of the ledger and of the two checkpoint files. */
  datatype Story = Story(rows: seq<Row>, gens: seq<GenRow>, judges: seq<JudgeRow>)

  /** Everything durable: the ledger with its lock, and the two checkpoint files. */
  datatype World = World(books: Books, gens: Journal<GenRow>, judges: Journal<JudgeRow>)

  function StoryOf(w: World): Story { Story(w.books.journal.rows, w.gens.rows, w.judges.rows) }

  /** What stays the same over all runs of a replicate. */
  datatype Setup = Setup(run: string, cases: seq<CaseId>, limit: nat,
                         ledger: Format<Row>, gens: Format<GenRow>, judges: Format<JudgeRow>)
  {
    ghost predicate Valid() { Sound(ledger) && Sound(gens) && Sound(judges) }
  }

  /** What one run works with: prompts, whether a draft needs a correction, how the answer is finished, and
      how the provider answers. A later run may come with other inputs. */
  datatype Inputs = Inputs(
    binding: string,
    promptSha: CaseId -> Sha,
    correctionSha: (CaseId, Response) -> Option<Sha>,
    finish: (CaseId, Response, Option<Response>) -> Answer,
    judgeSha: (CaseId, Answer) -> Sha,
    reply: nat -> Reply,
    bound: nat)

  // ---------------------------------------------------------------- what every durable state satisfies

  /** The ledger holds the completed request this row was made from. */
  predicate GenBacked(rows: seq<Row>, g: GenRow) {
    PhaseOf(rows, Operation(Generating, g.run, g.caseId)) == Finished(g.draft, g.sha)
  }

  predicate JudgeBacked(rows: seq<Row>, j: JudgeRow) {
    PhaseOf(rows, Operation(Judging, j.run, j.caseId)) == Finished(j.scores, j.sha)
  }

  ghost predicate HasGen(gens: seq<GenRow>, c: CaseId) {
    exists i :: 0 <= i < |gens| && gens[i].caseId == c
  }

  ghost predicate HasJudge(judges: seq<JudgeRow>, c: CaseId) {
    exists i :: 0 <= i < |judges| && judges[i].caseId == c
  }

  /** The judgement is about the recorded answer of its case. */
  ghost predicate AboutRecorded(gens: seq<GenRow>, j: JudgeRow) {
    exists g :: 0 <= g < |gens| && gens[g].caseId == j.caseId && gens[g].answer == j.answer
  }

  ghost predicate GoodGen(p: Setup, rows: seq<Row>, g: GenRow) {
    g.run == p.run && g.caseId in p.cases && GenBacked(rows, g)
  }

  ghost predicate GoodJudge(p: Setup, s: Story, j: JudgeRow) {
    j.run == p.run && j.caseId in p.cases && JudgeBacked(s.rows, j) && AboutRecorded(s.gens, j)
  }

  /** No case twice, every row backed by the ledger, every judgement about the recorded answer of its case,
      and no judgement before the generations are complete. */
  ghost predicate SoundStory(s: Story, p: Setup) {
    && RowsSound(s.rows, p.limit)
    && (forall i :: 0 <= i < |s.gens| ==> GoodGen(p, s.rows, s.gens[i]))
    && (forall i :: 0 <= i < |s.judges| ==> GoodJudge(p, s, s.judges[i]))
    && (forall i, j :: 0 <= i < j < |s.gens| ==> s.gens[i].caseId != s.gens[j].caseId)
    && (forall i, j :: 0 <= i < j < |s.judges| ==> s.judges[i].caseId != s.judges[j].caseId)
    && (s.judges != [] ==> forall c :: c in p.cases ==> HasGen(s.gens, c))
  }

  /** What was recorded is sound, and each file, as long as it can be read, holds exactly that. */
  ghost predicate SoundWorld(w: World, p: Setup) {
    && SoundStory(StoryOf(w), p)
    && Faithful(p.ledger, w.books.journal) && Faithful(p.gens, w.gens) && Faithful(p.judges, w.judges)
  }

  ghost predicate JournalGrows<R(!new)>(f: Format<R>, a: Journal<R>, b: Journal<R>) {
    a.rows <= b.rows && Content(f, a.file) <= Content(f, b.file)
  }

  /** The files and the ledger only grow, character by character. */
  ghost predicate Grows(a: World, b: World, p: Setup) {
    BooksGrow(p.ledger, a.books, b.books) && JournalGrows(p.gens, a.gens, b.gens) && JournalGrows(p.judges, a.judges, b.judges)
  }

  function WorldAt(t: seq<World>, k: nat): World
    requires k < |t|
  {
    t[k]
  }

  /** A history of durable states. */
  ghost predicate Legal(t: seq<World>, p: Setup) {
    && (forall k :: 0 <= k < |t| ==> SoundWorld(WorldAt(t, k), p))
    && (forall k :: 0 < k < |t| ==> Grows(t[k - 1], WorldAt(t, k), p))
  }

  lemma LegalNext(t: seq<World>, w: World, p: Setup)
    requires Legal(t, p) && SoundWorld(w, p) && (t != [] ==> Grows(t[|t| - 1], w, p))
    ensures Legal(t + [w], p)
  {
    var u := t + [w];
    forall k | 0 <= k < |u| ensures SoundWorld(WorldAt(u, k), p) {
      assert k < |t| ==> WorldAt(u, k) == WorldAt(t, k);
    }
    forall k | 0 < k < |u| ensures Grows(u[k - 1], WorldAt(u, k), p) {
      assert k < |t| ==> WorldAt(u, k) == WorldAt(t, k) && u[k - 1] == t[k - 1];
    }
  }

  lemma LegalPrefix(t: seq<World>, n: nat, p: Setup)
    requires Legal(t, p) && n <= |t|
    ensures Legal(t[..n], p)
  {
    var u := t[..n];
    forall k | 0 <= k < n ensures SoundWorld(WorldAt(u, k), p) {
      assert WorldAt(u, k) == WorldAt(t, k);
    }
    forall k | 0 < k < n ensures Grows(u[k - 1], WorldAt(u, k), p) {
      assert WorldAt(u, k) == WorldAt(t, k) && u[k - 1] == t[k - 1];
    }
  }

  /** A finished request stays finished, with the same response, whatever is appended to a sound ledger. */
  lemma {:induction false} FinishedStays(rows: seq<Row>, more: seq<Row>, limit: nat, op: Operation)
    requires rows <= more && RowsSound(more, limit) && PhaseOf(rows, op).Finished?
    ensures PhaseOf(more, op) == PhaseOf(rows, op)
    decreases |more|
  {
    if |rows| < |more| {
      var front := more[..|more| - 1];
      PrefixSound(more, |front|, limit);
      FinishedStays(rows, front, limit, op);
      assert !PhaseOf(more, op).Broken?;
    } else {
      assert rows == more;
    }
  }

  lemma SoundWithMoreRows(s: Story, more: seq<Row>, p: Setup)
    requires SoundStory(s, p) && s.rows <= more && RowsSound(more, p.limit)
    ensures SoundStory(s.(rows := more), p)
  {
    var t := s.(rows := more);
    forall i | 0 <= i < |s.gens| ensures GoodGen(p, more, s.gens[i]) {
      FinishedStays(s.rows, more, p.limit, Operation(Generating, s.gens[i].run, s.gens[i].caseId));
    }
    forall i | 0 <= i < |s.judges| ensures GoodJudge(p, t, s.judges[i]) {
      assert GoodJudge(p, s, s.judges[i]);
      FinishedStays(s.rows, more, p.limit, Operation(Judging, s.judges[i].run, s.judges[i].caseId));
    }
  }

  lemma SoundWithGen(s: Story, g: GenRow, p: Setup)
    requires SoundStory(s, p) && GoodGen(p, s.rows, g) && !HasGen(s.gens, g.caseId)
    ensures SoundStory(s.(gens := s.gens + [g]), p)
  {
    var t := s.(gens := s.gens + [g]);
    assert forall i :: 0 <= i < |s.gens| ==> t.gens[i] == s.gens[i];
  }

  lemma SoundWithJudge(s: Story, j: JudgeRow, p: Setup)
    requires SoundStory(s, p) && GoodJudge(p, s, j) && !HasJudge(s.judges, j.caseId)
    requires forall c :: c in p.cases ==> HasGen(s.gens, c)
    ensures SoundStory(s.(judges := s.judges + [j]), p)
  {
    var t := s.(judges := s.judges + [j]);
    assert forall i :: 0 <= i < |s.judges| ==> t.judges[i] == s.judges[i];
    forall i | 0 <= i < |t.judges| ensures GoodJudge(p, t, t.judges[i]) {
      assert i < |s.judges| ==> GoodJudge(p, s, s.judges[i]);
    }
  }

  /** In every reachable state: a judged case has its generation, its judgement is about the recorded answer,
      and both were paid for by one completed ledger request each, sent at most twice. */
  lemma JudgedCaseIsBacked(s: Story, p: Setup, i: nat) returns (g: nat)
    requires SoundStory(s, p) && i < |s.judges|
    ensures g < |s.gens| && s.gens[g].caseId == s.judges[i].caseId && s.gens[g].answer == s.judges[i].answer
    ensures var op := Operation(Generating, p.run, s.gens[g].caseId);
            Count(Matching(s.rows, op), COMPLETIONS) == 1 && Count(Matching(s.rows, op), RESERVES) <= 2
    ensures var op := Operation(Judging, p.run, s.judges[i].caseId);
            Count(Matching(s.rows, op), COMPLETIONS) == 1 && Count(Matching(s.rows, op), RESERVES) <= 2
  {
    assert GoodJudge(p, s, s.judges[i]) && AboutRecorded(s.gens, s.judges[i]);
    g :| 0 <= g < |s.gens| && s.gens[g].caseId == s.judges[i].caseId && s.gens[g].answer == s.judges[i].answer;
    assert GoodGen(p, s.rows, s.gens[g]);
    PhaseDescribes(s.rows, Operation(Generating, p.run, s.gens[g].caseId));
    PhaseDescribes(s.rows, Operation(Judging, p.run, s.judges[i].caseId));
  }

  // ---------------------------------------------------------------- resuming

  /** What a checkpoint row says it is about. */
  datatype Identity = Identity(run: string, caseId: CaseId)

  ghost predicate KnownOnce(ids: seq<Identity>, run: string, cases: seq<CaseId>) {
    && (forall i :: 0 <= i < |ids| ==> ids[i].run == run && ids[i].caseId in cases)
    && (forall i, j :: 0 <= i < j < |ids| ==> ids[i].caseId != ids[j].caseId)
  }

  /** Reading a checkpoint file back: a row of another run, or an unknown or repeated case, raises. */
  method ReadCheckpoint(ids: seq<Identity>, run: string, cases: seq<CaseId>) returns (raised: bool)
    ensures raised <==> !KnownOnce(ids, run, cases)
  {
    var indexed: set<CaseId> := {};
    for i := 0 to |ids|
      invariant KnownOnce(ids[..i], run, cases)
      invariant forall c :: c in indexed <==> exists k :: 0 <= k < i && ids[k].caseId == c
    {
      assert forall k :: 0 <= k < i ==> ids[..i][k] == ids[k];
      if ids[i].run != run || ids[i].caseId !in cases || ids[i].caseId in indexed { return true; }
      assert ids[..i + 1] == ids[..i] + [ids[i]];
      indexed := indexed + {ids[i].caseId};
    }
    assert ids[..|ids|] == ids;
    raised := false;
  }

  /** A request a checkpoint row claims was completed. */
  datatype Claim = Claim(op: Operation, sha: Sha)

  /** A row without its completed request in the ledger file raises. */
  method AssertBacked(claims: seq<Claim>, rows: seq<Row>) returns (raised: bool)
    ensures !raised <==> forall i :: 0 <= i < |claims| ==> CompletedFor(rows, claims[i].op, claims[i].sha)
  {
    for i := 0 to |claims|
      invariant forall k :: 0 <= k < i ==> CompletedFor(rows, claims[k].op, claims[k].sha)
    {
      if !CompletedFor(rows, claims[i].op, claims[i].sha) { return true; }
    }
    raised := false;
  }

  function GenIds(gens: seq<GenRow>): (r: seq<Identity>)
    ensures |r| == |gens| && forall i :: 0 <= i < |r| ==> r[i] == Identity(gens[i].run, gens[i].caseId)
  {
    seq(|gens|, i requires 0 <= i < |gens| => Identity(gens[i].run, gens[i].caseId))
  }

  function JudgeIds(judges: seq<JudgeRow>): (r: seq<Identity>)
    ensures |r| == |judges| && forall i :: 0 <= i < |r| ==> r[i] == Identity(judges[i].run, judges[i].caseId)
  {
    seq(|judges|, i requires 0 <= i < |judges| => Identity(judges[i].run, judges[i].caseId))
  }

  function Claims(gens: seq<GenRow>, judges: seq<JudgeRow>): (r: seq<Claim>)
    ensures |r| == |gens| + |judges|
    ensures forall i :: 0 <= i < |gens| ==> r[i] == Claim(Operation(Generating, gens[i].run, gens[i].caseId), gens[i].sha)
    ensures forall i :: 0 <= i < |judges| ==>
              r[|gens| + i] == Claim(Operation(Judging, judges[i].run, judges[i].caseId), judges[i].sha)
  {
    seq(|gens|, i requires 0 <= i < |gens| => Claim(Operation(Generating, gens[i].run, gens[i].caseId), gens[i].sha))
    + seq(|judges|, i requires 0 <= i < |judges| => Claim(Operation(Judging, judges[i].run, judges[i].caseId), judges[i].sha))
  }

  /** The rows a replicate recorded itself always pass the checks made on them. */
  lemma OwnRowsAreAccepted(s: Story, p: Setup)
    requires SoundStory(s, p)
    ensures KnownOnce(GenIds(s.gens), p.run, p.cases) && KnownOnce(JudgeIds(s.judges), p.run, p.cases)
    ensures forall k :: 0 <= k < |Claims(s.gens, s.judges)| ==>
              CompletedFor(s.rows, Claims(s.gens, s.judges)[k].op, Claims(s.gens, s.judges)[k].sha)
  {
    var claims, n := Claims(s.gens, s.judges), |s.gens|;
    forall k | 0 <= k < |claims| ensures CompletedFor(s.rows, claims[k].op, claims[k].sha) {
      if k < n {
        assert GoodGen(p, s.rows, s.gens[k]);
      } else {
        assert GoodJudge(p, s, s.judges[k - n]);
      }
      FinishedHasRow(s.rows, claims[k].op);
    }
    forall i | 0 <= i < |s.judges| ensures s.judges[i].run == p.run && s.judges[i].caseId in p.cases {
      assert GoodJudge(p, s, s.judges[i]);
    }
  }

  /** All three files read back: every line in them is a whole row, and holds no character splitlines cuts at. */
  predicate AllReadable(w: World, p: Setup) {
    Readable(p.ledger, w.books.journal) && Readable(p.gens, w.gens) && Readable(p.judges, w.judges)
  }

  /** A write that stops after n characters leaves a file that reads back as before: it had written nothing, or had
      found no open line and got as far as the end of a row without characters splitlines cuts at. */
  predicate LeavesReadable<R>(f: Format<R>, j: Journal<R>, r: R, n: nat) {
    n == 0 || (!j.file.open && n >= |f.render(r)| && Clean(f.render(r)))
  }

  /** A death while a row is written, in any of the three files, makes the next resume refuse the files exactly when
      it would have refused them before, or the write does not leave its file readable. */
  lemma DeathInRow(w: World, p: Setup, r: Row, a: nat, g: GenRow, b: nat, j: JudgeRow, c: nat)
    requires Writable(w.books.journal.file) && Writable(w.gens.file) && Writable(w.judges.file)
    requires a <= |RowText(p.ledger, r)| && b <= |RowText(p.gens, g)| && c <= |RowText(p.judges, j)|
    ensures var dead := w.(books := w.books.(journal := Recorded(p.ledger, w.books.journal, r, a)));
            AllReadable(dead, p) <==> AllReadable(w, p) && LeavesReadable(p.ledger, w.books.journal, r, a)
    ensures var dead := w.(gens := Recorded(p.gens, w.gens, g, b));
            AllReadable(dead, p) <==> AllReadable(w, p) && LeavesReadable(p.gens, w.gens, g, b)
    ensures var dead := w.(judges := Recorded(p.judges, w.judges, j, c));
            AllReadable(dead, p) <==> AllReadable(w, p) && LeavesReadable(p.judges, w.judges, j, c)
  {
    AppendedUndamagedIff(p.ledger, w.books.journal.file, r, a);
    AppendedUndamagedIff(p.gens, w.gens.file, g, b);
    AppendedUndamagedIff(p.judges, w.judges.file, j, c);
  }

  /** Something this case still needs from the provider is not in the ledger. */
  predicate DraftMissing(rows: seq<Row>, run: string, inputs: Inputs, c: CaseId) {
    var op := Operation(Generating, run, c);
    !StoredFor(rows, op, inputs.promptSha(c))
    || (var sha := inputs.correctionSha(c, PhaseOf(rows, op).response);
        sha.Some? && !StoredFor(rows, Operation(Correcting, run, c), sha.value))
  }

  /** The generation row of a case, as the ledger determines it once nothing is missing. */
  function GenRowOf(rows: seq<Row>, run: string, inputs: Inputs, c: CaseId): GenRow
    requires !DraftMissing(rows, run, inputs, c)
  {
    var draft := PhaseOf(rows, Operation(Generating, run, c)).response;
    var correction := if inputs.correctionSha(c, draft).None? then None
                      else Some(PhaseOf(rows, Operation(Correcting, run, c)).response);
    GenRow(run, inputs.binding, c, inputs.promptSha(c), draft, inputs.finish(c, draft, correction))
  }

  /** What a generation row must be: for this case, with the draft its own request was answered with, and with the
      answer made from that draft and -- exactly when the draft calls for one -- from the correction that was paid
      for. */
  ghost predicate MadeFrom(rows: seq<Row>, run: string, inputs: Inputs, c: CaseId, g: GenRow) {
    && g.run == run && g.binding == inputs.binding && g.caseId == c && g.sha == inputs.promptSha(c)
    && PhaseOf(rows, Operation(Generating, run, c)) == Finished(g.draft, inputs.promptSha(c))
    && match inputs.correctionSha(c, g.draft)
       case None => g.answer == inputs.finish(c, g.draft, None)
       case Some(sha) =>
         exists x :: PhaseOf(rows, Operation(Correcting, run, c)) == Finished(x, sha) && g.answer == inputs.finish(c, g.draft, Some(x))
  }

  /** What a judgement must be: the scores its own request was answered with, about this answer. */
  ghost predicate ScoredFrom(rows: seq<Row>, run: string, inputs: Inputs, c: CaseId, answer: Answer, j: JudgeRow) {
    && j.run == run && j.caseId == c && j.answer == answer && j.sha == inputs.judgeSha(c, answer)
    && PhaseOf(rows, Operation(Judging, run, c)) == Finished(j.scores, inputs.judgeSha(c, answer))
  }

  lemma GenRowIsMade(rows: seq<Row>, run: string, inputs: Inputs, c: CaseId)
    requires !DraftMissing(rows, run, inputs, c)
    ensures MadeFrom(rows, run, inputs, c, GenRowOf(rows, run, inputs, c))
  {
    var draft := PhaseOf(rows, Operation(Generating, run, c)).response;
    var sha := inputs.correctionSha(c, draft);
    if sha.Some? {
      var x := PhaseOf(rows, Operation(Correcting, run, c)).response;
      assert PhaseOf(rows, Operation(Correcting, run, c)) == Finished(x, sha.value);
    }
  }

  function JudgeRowOf(rows: seq<Row>, run: string, inputs: Inputs, c: CaseId, answer: Answer): JudgeRow
    requires StoredFor(rows, Operation(Judging, run, c), inputs.judgeSha(c, answer))
  {
    JudgeRow(run, c, inputs.judgeSha(c, answer), answer, PhaseOf(rows, Operation(Judging, run, c)).response)
  }

  /** A generation of this case was made from this binding. */
  ghost predicate GenUnder(gens: seq<GenRow>, c: CaseId, binding: string) {
    exists i :: 0 <= i < |gens| && gens[i].caseId == c && gens[i].binding == binding
  }

  /** No generation of this case was made from another binding. */
  ghost predicate OnlyUnder(gens: seq<GenRow>, c: CaseId, binding: string) {
    forall i :: 0 <= i < |gens| && gens[i].caseId == c ==> gens[i].binding == binding
  }

  ghost predicate ScoresMissing(rows: seq<Row>, run: string, gens: seq<GenRow>, inputs: Inputs, c: CaseId) {
    exists g :: 0 <= g < |gens| && gens[g].caseId == c
                && !StoredFor(rows, Operation(Judging, run, c), inputs.judgeSha(c, gens[g].answer))
  }

  // ---------------------------------------------------------------- writing the checkpoint files

  /** A whole row was written, newline and all. */
  ghost predicate Wrote<R(!new)>(f: Format<R>, before: Journal<R>, now: Journal<R>, r: R) {
    && now.rows == before.rows + [r] && !now.file.open
    && Content(f, now.file) == Content(f, before.file) + RowText(f, r)
    && (Readable(f, now) <==> Readable(f, before) && !before.file.open && Clean(f.render(r)))
  }

  lemma ClosedAfter<R(!new)>(f: Format<R>, before: Journal<R>, now: Journal<R>, r: R)
    requires Wrote(f, before, now, r)
    ensures Writable(now.file) && now.rows != [] && now.rows[..|now.rows| - 1] == before.rows && now.rows[|now.rows| - 1] == r
  {
  }

  lemma RecordedIsWrote<R(!new)>(f: Format<R>, j: Journal<R>, r: R)
    requires Writable(j.file)
    ensures Wrote(f, j, Recorded(f, j, r, |RowText(f, r)|), r)
  {
    AppendedUndamagedIff(f, j.file, r, |RowText(f, r)|);
    AppendedContent(f, j.file, r, |RowText(f, r)|);
    assert RowText(f, r)[..|RowText(f, r)|] == RowText(f, r);
  }

  lemma StoryWithGen(s: Story, g: GenRow, gens: seq<GenRow>, p: Setup)
    requires SoundStory(s, p) && GoodGen(p, s.rows, g) && !HasGen(s.gens, g.caseId)
    requires gens == s.gens || gens == s.gens + [g]
    ensures SoundStory(s.(gens := gens), p)
  {
    if gens == s.gens {
      assert s.(gens := gens) == s;
    } else {
      SoundWithGen(s, g, p);
    }
  }

  lemma StoryWithJudge(s: Story, j: JudgeRow, judges: seq<JudgeRow>, p: Setup)
    requires SoundStory(s, p) && GoodJudge(p, s, j) && !HasJudge(s.judges, j.caseId)
    requires forall c :: c in p.cases ==> HasGen(s.gens, c)
    requires judges == s.judges || judges == s.judges + [j]
    ensures SoundStory(s.(judges := judges), p)
  {
    if judges == s.judges {
      assert s.(judges := judges) == s;
    } else {
      SoundWithJudge(s, j, p);
    }
  }

  lemma NextGenCharacter(w: World, g: GenRow, n: nat, p: Setup)
    requires p.Valid() && SoundWorld(w, p) && Writable(w.gens.file) && n < |RowText(p.gens, g)|
    requires GoodGen(p, w.books.journal.rows, g) && !HasGen(w.gens.rows, g.caseId)
    ensures SoundWorld(w.(gens := Recorded(p.gens, w.gens, g, n + 1)), p)
    ensures Grows(w.(gens := Recorded(p.gens, w.gens, g, n)), w.(gens := Recorded(p.gens, w.gens, g, n + 1)), p)
  {
    hide Sound, SoundStory, Faithful, Content, Appended, HasGen, GoodGen, RowsSound;
    RecordedFaithful(p.gens, w.gens, g, n + 1);
    RecordedGrows(p.gens, w.gens, g, n);
    StoryWithGen(StoryOf(w), g, Recorded(p.gens, w.gens, g, n + 1).rows, p);
  }

  lemma NextJudgeCharacter(w: World, j: JudgeRow, n: nat, p: Setup)
    requires p.Valid() && SoundWorld(w, p) && Writable(w.judges.file) && n < |RowText(p.judges, j)|
    requires GoodJudge(p, StoryOf(w), j) && !HasJudge(w.judges.rows, j.caseId)
    requires forall c :: c in p.cases ==> HasGen(w.gens.rows, c)
    ensures SoundWorld(w.(judges := Recorded(p.judges, w.judges, j, n + 1)), p)
    ensures Grows(w.(judges := Recorded(p.judges, w.judges, j, n)), w.(judges := Recorded(p.judges, w.judges, j, n + 1)), p)
  {
    hide Sound, SoundStory, Faithful, Content, Appended, HasGen, HasJudge, GoodJudge, RowsSound;
    RecordedFaithful(p.judges, w.judges, j, n + 1);
    RecordedGrows(p.judges, w.judges, j, n);
    StoryWithJudge(StoryOf(w), j, Recorded(p.judges, w.judges, j, n + 1).rows, p);
  }

  /** The world after each further character of a generation row, and of a judgement. */
  ghost predicate GenSpelled(p: Setup, t: seq<World>, from: nat, w: World, g: GenRow, n: nat)
    requires Writable(w.gens.file) && n <= |RowText(p.gens, g)|
  {
    |t| == from + n && forall k :: from <= k < from + n ==> WorldAt(t, k) == w.(gens := Recorded(p.gens, w.gens, g, k - from + 1))
  }

  ghost predicate JudgeSpelled(p: Setup, t: seq<World>, from: nat, w: World, j: JudgeRow, n: nat)
    requires Writable(w.judges.file) && n <= |RowText(p.judges, j)|
  {
    |t| == from + n && forall k :: from <= k < from + n ==> WorldAt(t, k) == w.(judges := Recorded(p.judges, w.judges, j, k - from + 1))
  }

  lemma GenSpelledNext(p: Setup, t: seq<World>, from: nat, w: World, g: GenRow, n: nat)
    requires Writable(w.gens.file) && n < |RowText(p.gens, g)| && GenSpelled(p, t, from, w, g, n)
    ensures GenSpelled(p, t + [w.(gens := Recorded(p.gens, w.gens, g, n + 1))], from, w, g, n + 1)
  {
    var u := t + [w.(gens := Recorded(p.gens, w.gens, g, n + 1))];
    forall k | from <= k < |u| ensures WorldAt(u, k) == w.(gens := Recorded(p.gens, w.gens, g, k - from + 1)) {
      assert k < |t| ==> WorldAt(u, k) == WorldAt(t, k);
    }
  }

  lemma JudgeSpelledNext(p: Setup, t: seq<World>, from: nat, w: World, j: JudgeRow, n: nat)
    requires Writable(w.judges.file) && n < |RowText(p.judges, j)| && JudgeSpelled(p, t, from, w, j, n)
    ensures JudgeSpelled(p, t + [w.(judges := Recorded(p.judges, w.judges, j, n + 1))], from, w, j, n + 1)
  {
    var u := t + [w.(judges := Recorded(p.judges, w.judges, j, n + 1))];
    forall k | from <= k < |u| ensures WorldAt(u, k) == w.(judges := Recorded(p.judges, w.judges, j, k - from + 1)) {
      assert k < |t| ==> WorldAt(u, k) == WorldAt(t, k);
    }
  }

  /** Every case was generated from this binding. */
  ghost predicate AllUnder(gens: seq<GenRow>, cases: seq<CaseId>, binding: string) {
    forall k :: 0 <= k < |cases| ==> GenUnder(gens, cases[k], binding)
  }

  ghost predicate AllJudged(judges: seq<JudgeRow>, cases: seq<CaseId>) {
    forall k :: 0 <= k < |cases| ==> HasJudge(judges, cases[k])
  }

  lemma MoreUnder(a: seq<GenRow>, b: seq<GenRow>, cases: seq<CaseId>, n: nat, binding: string)
    requires a <= b && n < |cases| && AllUnder(a, cases[..n], binding) && GenUnder(b, cases[n], binding)
    ensures AllUnder(b, cases[..n + 1], binding)
  {
    var some := cases[..n + 1];
    forall k | 0 <= k < n + 1 ensures GenUnder(b, some[k], binding) {
      if k < n {
        assert cases[..n][k] == cases[k];
        var i :| 0 <= i < |a| && a[i].caseId == cases[k] && a[i].binding == binding;
        assert b[i].caseId == cases[k];
      }
    }
  }

  lemma MoreJudged(a: seq<JudgeRow>, b: seq<JudgeRow>, cases: seq<CaseId>, n: nat)
    requires a <= b && n < |cases| && AllJudged(a, cases[..n]) && HasJudge(b, cases[n])
    ensures AllJudged(b, cases[..n + 1])
  {
    var some := cases[..n + 1];
    forall k | 0 <= k < n + 1 ensures HasJudge(b, some[k]) {
      if k < n {
        assert cases[..n][k] == cases[k];
        var i :| 0 <= i < |a| && a[i].caseId == cases[k];
        assert b[i].caseId == cases[k];
      }
    }
  }

  // ---------------------------------------------------------------- nothing left to ask the provider

  /** The ledger holds the scores of the answer this case has, or will have. */
  ghost predicate ScoresReady(rows: seq<Row>, run: string, gens: seq<GenRow>, inputs: Inputs, c: CaseId) {
    && !ScoresMissing(rows, run, gens, inputs, c)
    && (!HasGen(gens, c) && !DraftMissing(rows, run, inputs, c) ==>
          StoredFor(rows, Operation(Judging, run, c), inputs.judgeSha(c, GenRowOf(rows, run, inputs, c).answer)))
  }

  ghost predicate CaseReady(p: Setup, inputs: Inputs, s: Story, c: CaseId) {
    && (if HasGen(s.gens, c) then GenUnder(s.gens, c, inputs.binding) else !DraftMissing(s.rows, p.run, inputs, c))
    && (HasJudge(s.judges, c) || ScoresReady(s.rows, p.run, s.gens, inputs, c))
  }

  /** The ledger holds every answer that the checkpoint files still lack. */
  ghost predicate AllReady(p: Setup, inputs: Inputs, s: Story) {
    Used(s.rows) < inputs.bound && forall k :: 0 <= k < |p.cases| ==> CaseReady(p, inputs, s, p.cases[k])
  }

  lemma ReadyWithGen(p: Setup, inputs: Inputs, s: Story, x: CaseId)
    requires AllReady(p, inputs, s) && !HasGen(s.gens, x) && !DraftMissing(s.rows, p.run, inputs, x)
    ensures AllReady(p, inputs, s.(gens := s.gens + [GenRowOf(s.rows, p.run, inputs, x)]))
  {
    var g := GenRowOf(s.rows, p.run, inputs, x);
    var t := s.(gens := s.gens + [g]);
    assert t.gens[|s.gens|] == g && forall i :: 0 <= i < |s.gens| ==> t.gens[i] == s.gens[i];
    forall k | 0 <= k < |p.cases| ensures CaseReady(p, inputs, t, p.cases[k]) {
      assert CaseReady(p, inputs, s, p.cases[k]);
      CaseReadyWithGen(p, inputs, s, x, p.cases[k]);
    }
  }

  lemma CaseReadyWithGen(p: Setup, inputs: Inputs, s: Story, x: CaseId, c: CaseId)
    requires CaseReady(p, inputs, s, c) && !HasGen(s.gens, x) && !DraftMissing(s.rows, p.run, inputs, x)
    ensures CaseReady(p, inputs, s.(gens := s.gens + [GenRowOf(s.rows, p.run, inputs, x)]), c)
  {
    var g := GenRowOf(s.rows, p.run, inputs, x);
    var gens := s.gens + [g];
    assert gens[|s.gens|] == g && forall i :: 0 <= i < |s.gens| ==> gens[i] == s.gens[i];
    assert HasGen(gens, c) <==> HasGen(s.gens, c) || c == x;
    if GenUnder(s.gens, c, inputs.binding) {
      var i :| 0 <= i < |s.gens| && s.gens[i].caseId == c && s.gens[i].binding == inputs.binding;
      assert gens[i].caseId == c;
    }
  }

  lemma ReadyWithJudge(p: Setup, inputs: Inputs, s: Story, j: JudgeRow)
    requires AllReady(p, inputs, s)
    ensures AllReady(p, inputs, s.(judges := s.judges + [j]))
  {
    var t := s.(judges := s.judges + [j]);
    assert forall i :: 0 <= i < |s.judges| ==> t.judges[i] == s.judges[i];
    forall k | 0 <= k < |p.cases| ensures CaseReady(p, inputs, t, p.cases[k]) {
      assert CaseReady(p, inputs, s, p.cases[k]);
    }
  }
}
