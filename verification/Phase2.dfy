/** The two-phase evaluation run (scripts/run_evaluation_phase2.py, run_phase2): generate every answer, then
    judge every answer, stopping at the first outcome that is not OK. The environment decides outcomes. */
module Phase2 {
  import opened Outcomes

  type Question = string
  type Context = string
  type Answer = string

  datatype GenStatus = GenOk | GenQuota | GenError
  datatype JudgeStatus = JudgeOk | ParseInvalid | JudgeQuota | JudgeError

  datatype GenRecord = GenRecord(question: Question, status: GenStatus, answer: Answer)
  datatype JudgeRecord = JudgeRecord(question: Question, status: JudgeStatus)

  datatype Stop = NotStopped | AtGeneration(generation: GenStatus, question: Question) | AtJudge(judgement: JudgeStatus, question: Question)

  /** Which consumer saw which context for a question. */
  datatype Use = Generated(question: Question, context: Context) | Measured(question: Question, context: Context)
               | Judged(question: Question, context: Context)

  /** The renderer's answer to each of its calls, the provider's outcome per question and context, and the
      judge's outcome per question, answer and context. The renderer need not be a function of the case. */
  datatype Environment = Environment(
    render: nat -> Context,
    generate: (Question, Context) -> (GenStatus, Answer),
    judge: (Question, Answer, Context) -> JudgeStatus)

  datatype Case = Case(question: Question, generation: Option<GenStatus>, judge: Option<JudgeStatus>)

  datatype Summary = Summary(official: bool, providerComplete: bool, benchmarkEligible: bool,
                             generations: seq<GenRecord>, judges: seq<JudgeRecord>, stop: Stop, cases: seq<Case>)

  ghost predicate Distinct(selected: seq<Question>) {
    forall i, j :: 0 <= i < j < |selected| ==> selected[i] != selected[j]
  }

  // ---------------------------------------------------------------- what a run should do

  /** Each question's context, rendered once; a repeated question keeps its last rendering. */
  function Rendered(selected: seq<Question>, env: Environment): map<Question, Context> {
    if selected == [] then map[]
    else Rendered(selected[..|selected| - 1], env)[selected[|selected| - 1] := env.render(|selected| - 1)]
  }

  lemma {:induction false} RenderedHas(selected: seq<Question>, env: Environment, i: nat)
    requires i < |selected|
    ensures selected[i] in Rendered(selected, env)
  {
    if i < |selected| - 1 {
      RenderedHas(selected[..|selected| - 1], env, i);
    }
  }

  function ContextOf(selected: seq<Question>, env: Environment, q: Question): Context {
    if q in Rendered(selected, env) then Rendered(selected, env)[q] else ""
  }

  /** Index i is the last one with this question. */
  ghost predicate LastIndex(selected: seq<Question>, q: Question, i: int) {
    0 <= i < |selected| && selected[i] == q && forall k :: i < k < |selected| ==> selected[k] != q
  }

  lemma ContextsAreOwn(selected: seq<Question>, env: Environment)
    ensures forall q, i :: LastIndex(selected, q, i) ==> ContextOf(selected, env, q) == env.render(i)
  {
    forall i, q | LastIndex(selected, q, i) ensures ContextOf(selected, env, q) == env.render(i) {
      ContextIsOwn(selected, env, i);
    }
  }

  /** The context of a question is the rendering of its last case -- over distinct questions, of its own. */
  lemma {:induction false} ContextIsOwn(selected: seq<Question>, env: Environment, i: nat)
    requires i < |selected| && LastIndex(selected, selected[i], i)
    ensures ContextOf(selected, env, selected[i]) == env.render(i)
  {
    if i < |selected| - 1 {
      ContextIsOwn(selected[..|selected| - 1], env, i);
    }
  }

  function GenerationOf(selected: seq<Question>, env: Environment, q: Question): GenRecord {
    var (status, answer) := env.generate(q, ContextOf(selected, env, q));
    GenRecord(q, status, answer)
  }

  function JudgementOf(selected: seq<Question>, env: Environment, q: Question): JudgeRecord {
    JudgeRecord(q, env.judge(q, GenerationOf(selected, env, q).answer, ContextOf(selected, env, q)))
  }

  /** The first question whose generation is not OK. */
  ghost predicate GenerationsStopAt(selected: seq<Question>, env: Environment, g: nat) {
    && g <= |selected|
    && (forall i :: 0 <= i < g ==> GenerationOf(selected, env, selected[i]).status.GenOk?)
    && (g < |selected| ==> !GenerationOf(selected, env, selected[g]).status.GenOk?)
  }

  ghost predicate JudgementsStopAt(selected: seq<Question>, env: Environment, j: nat) {
    && j <= |selected|
    && (forall i :: 0 <= i < j ==> JudgementOf(selected, env, selected[i]).status.JudgeOk?)
    && (j < |selected| ==> !JudgementOf(selected, env, selected[j]).status.JudgeOk?)
  }

  /** How many questions a phase reaches: everything before the first failure, and the failure itself. */
  function Reached(stop: nat, count: nat): nat { if stop < count then stop + 1 else count }

  /** What the first n questions use when their generations are OK: the provider and the metrics see the same
      rendering. */
  function GenerationUses(selected: seq<Question>, env: Environment, n: nat): seq<Use>
    requires n <= |selected|
  {
    if n == 0 then []
    else
      var q := selected[n - 1];
      GenerationUses(selected, env, n - 1)
      + [Generated(q, ContextOf(selected, env, q)), Measured(q, ContextOf(selected, env, q))]
  }

  function JudgeUses(selected: seq<Question>, env: Environment, n: nat): seq<Use>
    requires n <= |selected|
  {
    if n == 0 then []
    else JudgeUses(selected, env, n - 1) + [Judged(selected[n - 1], ContextOf(selected, env, selected[n - 1]))]
  }

  /** The first n questions are judged, all OK. */
  ghost predicate AllJudgedOk(selected: seq<Question>, env: Environment, judges: seq<JudgeRecord>, n: nat) {
    |judges| == n <= |selected|
    && forall k :: 0 <= k < n ==> judges[k] == JudgementOf(selected, env, selected[k]) && judges[k].status.JudgeOk?
  }

  lemma JudgedNext(selected: seq<Question>, env: Environment, judges: seq<JudgeRecord>, n: nat)
    requires AllJudgedOk(selected, env, judges, n) && n < |selected|
    ensures var last := JudgementOf(selected, env, selected[n]);
            var all := judges + [last];
            && (last.status.JudgeOk? ==> AllJudgedOk(selected, env, all, n + 1))
            && (!last.status.JudgeOk? ==> JudgementsStopAt(selected, env, n))
            && |all| == n + 1 && forall k :: 0 <= k < n + 1 ==> all[k] == JudgementOf(selected, env, selected[k])
  {
  }

  lemma JudgeUsesNext(selected: seq<Question>, env: Environment, n: nat, before: seq<Use>)
    requires n < |selected|
    ensures before + JudgeUses(selected, env, n) + [Judged(selected[n], ContextOf(selected, env, selected[n]))]
            == before + JudgeUses(selected, env, n + 1)
  {
  }

  /** Every use of a context when generation stops at g: a failing generation is sent but not measured. */
  function UsesToGenerate(selected: seq<Question>, env: Environment, g: nat): seq<Use>
    requires g <= |selected|
  {
    GenerationUses(selected, env, g)
    + if g < |selected| then [Generated(selected[g], ContextOf(selected, env, selected[g]))] else []
  }

  /** Each generated question is generated and then measured, the question at which generation stopped only
      generated, each judged one judged -- and every one of these uses sees the one rendering made for its last case. */
  ghost predicate UsesExact(selected: seq<Question>, env: Environment, generated: nat, measured: nat, judged: nat, uses: seq<Use>) {
    && |uses| == generated + measured + judged
    && measured <= generated <= |selected| && generated <= measured + 1 && judged <= |selected|
    && (forall k, i :: 0 <= k < generated && LastIndex(selected, selected[k], i) ==> uses[2 * k] == Generated(selected[k], env.render(i)))
    && (forall k, i :: 0 <= k < measured && LastIndex(selected, selected[k], i) ==> uses[2 * k + 1] == Measured(selected[k], env.render(i)))
    && (forall k, i :: 0 <= k < judged && LastIndex(selected, selected[k], i) ==>
          uses[generated + measured + k] == Judged(selected[k], env.render(i)))
  }

  lemma {:induction false} GenerationUsesAt(selected: seq<Question>, env: Environment, n: nat)
    requires n <= |selected|
    ensures |GenerationUses(selected, env, n)| == 2 * n
    ensures forall k :: 0 <= k < n ==>
              && GenerationUses(selected, env, n)[2 * k] == Generated(selected[k], ContextOf(selected, env, selected[k]))
              && GenerationUses(selected, env, n)[2 * k + 1] == Measured(selected[k], ContextOf(selected, env, selected[k]))
  {
    if n > 0 { GenerationUsesAt(selected, env, n - 1); }
  }

  lemma {:induction false} JudgeUsesAt(selected: seq<Question>, env: Environment, n: nat)
    requires n <= |selected|
    ensures |JudgeUses(selected, env, n)| == n
    ensures forall k :: 0 <= k < n ==> JudgeUses(selected, env, n)[k] == Judged(selected[k], ContextOf(selected, env, selected[k]))
  {
    if n > 0 { JudgeUsesAt(selected, env, n - 1); }
  }

  lemma UsesAt(selected: seq<Question>, env: Environment, g: nat, judged: nat)
    requires g <= |selected| && judged <= |selected|
    ensures var uses, generated := UsesToGenerate(selected, env, g) + JudgeUses(selected, env, judged), Reached(g, |selected|);
            && |uses| == generated + g + judged
            && (forall k :: 0 <= k < generated ==> uses[2 * k] == Generated(selected[k], ContextOf(selected, env, selected[k])))
            && (forall k :: 0 <= k < g ==> uses[2 * k + 1] == Measured(selected[k], ContextOf(selected, env, selected[k])))
            && (forall k :: 0 <= k < judged ==> uses[generated + g + k] == Judged(selected[k], ContextOf(selected, env, selected[k])))
  {
    hide GenerationUses, JudgeUses, ContextOf;
    GenerationUsesAt(selected, env, g);
    JudgeUsesAt(selected, env, judged);
  }

  /** Generation, metrics and judge only ever see the one rendering of their question's case. */
  lemma OneRendering(selected: seq<Question>, env: Environment, g: nat, judged: nat)
    requires g <= |selected| && judged <= |selected|
    ensures UsesExact(selected, env, Reached(g, |selected|), g, judged,
                      UsesToGenerate(selected, env, g) + JudgeUses(selected, env, judged))
  {
    hide UsesToGenerate, JudgeUses, ContextOf, LastIndex;
    UsesAt(selected, env, g, judged);
    ContextsAreOwn(selected, env);
    hide UsesToGenerate, JudgeUses, ContextOf, LastIndex;
  }

  // ---------------------------------------------------------------- the run

  class Run {
    const selected: seq<Question>
    const env: Environment
    var generations: seq<GenRecord>
    var judges: seq<JudgeRecord>
    var stop: Stop
    /** Every use of a context, in order. */
    var uses: seq<Use>

    constructor (selected: seq<Question>, env: Environment)
      ensures this.selected == selected && this.env == env
      ensures generations == [] && judges == [] && stop == NotStopped && uses == []
    {
      this.selected, this.env := selected, env;
      generations, judges, stop, uses := [], [], NotStopped, [];
    }

    method RenderAll() returns (rendered: map<Question, Context>)
      ensures rendered == Rendered(selected, env)
    {
      rendered := map[];
      for i := 0 to |selected|
        invariant rendered == Rendered(selected[..i], env)
      {
        assert selected[..i + 1][..i] == selected[..i];
        rendered := rendered[selected[i] := env.render(i)];
      }
      assert selected[..|selected|] == selected;
    }

    /** The generation loop. */
    method Generate(rendered: map<Question, Context>) returns (ghost g: nat)
      requires rendered == Rendered(selected, env) && generations == [] && stop == NotStopped && uses == []
      modifies this`generations, this`stop, this`uses
      ensures GenerationsStopAt(selected, env, g)
      ensures |generations| == Reached(g, |selected|)
      ensures forall i :: 0 <= i < |generations| ==> generations[i] == GenerationOf(selected, env, selected[i])
      ensures stop == if g < |selected| then AtGeneration(generations[g].status, selected[g]) else NotStopped
      ensures uses == UsesToGenerate(selected, env, g)
    {
      hide Rendered;
      g := 0;
      for i := 0 to |selected|
        invariant g == i == |generations| && stop == NotStopped
        invariant forall k :: 0 <= k < i ==> generations[k] == GenerationOf(selected, env, selected[k]) && generations[k].status.GenOk?
        invariant uses == GenerationUses(selected, env, i)
      {
        RenderedHas(selected, env, i);
        var q, context := selected[i], rendered[selected[i]];
        var (status, answer) := env.generate(q, context);
        uses := uses + [Generated(q, context)];
        generations := generations + [GenRecord(q, status, answer)];
        if !status.GenOk? {
          stop := AtGeneration(status, q);
          return;
        }
        uses := uses + [Measured(q, context)];
        g := i + 1;
      }
    }

    /** The judge loop, entered only when every generation is OK. */
    method Judge(rendered: map<Question, Context>) returns (ghost j: nat)
      requires rendered == Rendered(selected, env) && judges == [] && stop == NotStopped
      requires |generations| == |selected|
      requires forall i :: 0 <= i < |generations| ==> generations[i] == GenerationOf(selected, env, selected[i])
      modifies this`judges, this`stop, this`uses
      ensures JudgementsStopAt(selected, env, j)
      ensures |judges| == Reached(j, |selected|)
      ensures forall i :: 0 <= i < |judges| ==> judges[i] == JudgementOf(selected, env, selected[i])
      ensures stop == if j < |selected| then AtJudge(judges[j].status, selected[j]) else NotStopped
      ensures uses == old(uses) + JudgeUses(selected, env, |judges|)
    {
      j := 0;
      for i := 0 to |selected|
        invariant j == i && stop == NotStopped && AllJudgedOk(selected, env, judges, i)
        invariant uses == old(uses) + JudgeUses(selected, env, i)
      {
        ghost var before := judges;
        JudgeUsesNext(selected, env, i, old(uses));
        var status := JudgeOne(rendered, i);
        JudgedNext(selected, env, before, i);
        if !status.JudgeOk? {
          stop := AtJudge(status, selected[i]);
          return;
        }
        j := i + 1;
      }
    }

    /** Judge one recorded answer. */
    method JudgeOne(rendered: map<Question, Context>, i: nat) returns (status: JudgeStatus)
      requires rendered == Rendered(selected, env) && i < |selected| && i < |generations|
      requires generations[i] == GenerationOf(selected, env, selected[i])
      modifies this`judges, this`uses
      ensures judges == old(judges) + [JudgementOf(selected, env, selected[i])]
      ensures status == JudgementOf(selected, env, selected[i]).status
      ensures uses == old(uses) + [Judged(selected[i], ContextOf(selected, env, selected[i]))]
    {
      RenderedHas(selected, env, i);
      var q, context := selected[i], rendered[selected[i]];
      status := env.judge(q, generations[i].answer, context);
      uses := uses + [Judged(q, context)];
      judges := judges + [JudgeRecord(q, status)];
    }
  }

  /** Official results need at least one generation and complete OK coverage across both phases. */
  predicate AggregateOfficial(generations: seq<GenRecord>, judges: seq<JudgeRecord>) {
    var ok := CountGenOk(generations);
    ok != 0 && ok == |generations| && CountJudgeOk(judges) == ok
  }

  function CountGenOk(s: seq<GenRecord>): nat {
    if s == [] then 0 else CountGenOk(s[..|s| - 1]) + if s[|s| - 1].status.GenOk? then 1 else 0
  }

  function CountJudgeOk(s: seq<JudgeRecord>): nat {
    if s == [] then 0 else CountJudgeOk(s[..|s| - 1]) + if s[|s| - 1].status.JudgeOk? then 1 else 0
  }

  /** The record kept for a question: the last one written. */
  function LastGen(s: seq<GenRecord>, q: Question): Option<GenStatus> {
    if s == [] then None
    else if s[|s| - 1].question == q then Some(s[|s| - 1].status) else LastGen(s[..|s| - 1], q)
  }

  function LastJudge(s: seq<JudgeRecord>, q: Question): Option<JudgeStatus> {
    if s == [] then None
    else if s[|s| - 1].question == q then Some(s[|s| - 1].status) else LastJudge(s[..|s| - 1], q)
  }

  method RunPhase2(selected: seq<Question>, env: Environment, publishOfficial: bool, forceNonOfficial: bool)
    returns (r: Summary, uses: seq<Use>, ghost g: nat, ghost j: nat)
    ensures Ran(selected, env, r, g, j)
    ensures uses == UsesToGenerate(selected, env, g) + JudgeUses(selected, env, |r.judges|)
    ensures AsRun(selected, env, r) && UsesExact(selected, env, |r.generations|, g, |r.judges|, uses)
    ensures r.providerComplete <==> r.stop == NotStopped
    ensures r.benchmarkEligible <==> r.providerComplete && selected != []
    ensures r.official <==> r.benchmarkEligible && publishOfficial && !forceNonOfficial
  {
    var generations, judges, stop;
    generations, judges, stop, uses, g, j := RunPhases(selected, env);
    CompleteIffNotStopped(selected, env, generations, judges, stop, g, j);
    var complete := Complete(selected, generations, judges, stop);
    var eligible := AggregateOfficial(generations, judges) && complete;
    var official := eligible && publishOfficial && !forceNonOfficial;
    var cases := Cases(selected, generations, judges);
    r := Summary(official, complete, eligible, generations, judges, stop, cases);
    RanAsRun(selected, env, r, g, j);
    OneRendering(selected, env, g, |judges|);
  }

  /** Render, generate, and judge if nothing stopped the generations. */
  method RunPhases(selected: seq<Question>, env: Environment)
    returns (generations: seq<GenRecord>, judges: seq<JudgeRecord>, stop: Stop, uses: seq<Use>, ghost g: nat, ghost j: nat)
    ensures Phases(selected, env, generations, judges, stop, g, j)
    ensures uses == UsesToGenerate(selected, env, g) + JudgeUses(selected, env, |judges|)
  {
    var run := new Run(selected, env);
    var rendered := run.RenderAll();
    g := run.Generate(rendered);
    j := 0;
    if run.stop == NotStopped {
      j := run.Judge(rendered);
    }
    generations, judges, stop, uses := run.generations, run.judges, run.stop, run.uses;
  }

  /** The completeness gate. */
  predicate Complete(selected: seq<Question>, generations: seq<GenRecord>, judges: seq<JudgeRecord>, stop: Stop) {
    && |generations| == |selected|
    && CountGenOk(generations) == |generations|
    && CountJudgeOk(judges) == |selected| && stop == NotStopped
  }

  lemma CompleteIffNotStopped(selected: seq<Question>, env: Environment, generations: seq<GenRecord>,
                              judges: seq<JudgeRecord>, stop: Stop, g: nat, j: nat)
    requires Phases(selected, env, generations, judges, stop, g, j)
    ensures Complete(selected, generations, judges, stop) <==> stop == NotStopped
    ensures Complete(selected, generations, judges, stop) ==> (AggregateOfficial(generations, judges) <==> selected != [])
  {
    GenCount(generations);
    JudgeCount(judges);
  }

  function Cases(selected: seq<Question>, generations: seq<GenRecord>, judges: seq<JudgeRecord>): (r: seq<Case>)
    ensures |r| == |selected|
    ensures forall i :: 0 <= i < |selected| ==>
              r[i] == Case(selected[i], LastGen(generations, selected[i]), LastJudge(judges, selected[i]))
  {
    seq(|selected|, i requires 0 <= i < |selected| =>
      Case(selected[i], LastGen(generations, selected[i]), LastJudge(judges, selected[i])))
  }

  /** The generations are those of a prefix of the selection, all OK but possibly the last; judging happens
      only after all generations are OK, and again over such a prefix. */
  ghost predicate Phases(selected: seq<Question>, env: Environment, generations: seq<GenRecord>,
                         judges: seq<JudgeRecord>, stop: Stop, g: nat, j: nat) {
    && GenerationsStopAt(selected, env, g)
    && |generations| == Reached(g, |selected|)
    && (forall i :: 0 <= i < |generations| ==> generations[i] == GenerationOf(selected, env, selected[i]))
    && (g < |selected| ==> judges == [] && stop == AtGeneration(generations[g].status, selected[g]))
    && (g == |selected| ==>
          && JudgementsStopAt(selected, env, j)
          && |judges| == Reached(j, |selected|)
          && (forall i :: 0 <= i < |judges| ==> judges[i] == JudgementOf(selected, env, selected[i]))
          && stop == if j < |selected| then AtJudge(judges[j].status, selected[j]) else NotStopped)
  }

  ghost predicate Ran(selected: seq<Question>, env: Environment, r: Summary, g: nat, j: nat) {
    && Phases(selected, env, r.generations, r.judges, r.stop, g, j)
    && r.cases == Cases(selected, r.generations, r.judges)
  }

  predicate AllGenerated(selected: seq<Question>, r: Summary) {
    |r.generations| == |selected| && forall k :: 0 <= k < |r.generations| ==> r.generations[k].status == GenOk
  }

  /** The run, outcome by outcome: each question is sent with the rendering of its last case, and its answer judged
      under the same rendering; generation stops at the first outcome that is not OK, judging starts only when there
      is none, and stops likewise; and the summary names that outcome and its question. */
  ghost predicate AsRun(selected: seq<Question>, env: Environment, r: Summary) {
    && |r.generations| <= |selected| && |r.judges| <= |selected|
    && (forall k, i :: 0 <= k < |r.generations| && LastIndex(selected, selected[k], i) ==>
          var (status, answer) := env.generate(selected[k], env.render(i));
          r.generations[k] == GenRecord(selected[k], status, answer))
    && (forall k, i :: 0 <= k < |r.judges| && LastIndex(selected, selected[k], i) ==>
          var (status, answer) := env.generate(selected[k], env.render(i));
          r.judges[k] == JudgeRecord(selected[k], env.judge(selected[k], answer, env.render(i))))
    && (forall k :: 0 <= k < |r.generations| - 1 ==> r.generations[k].status == GenOk)
    && (forall k :: 0 <= k < |r.judges| - 1 ==> r.judges[k].status == JudgeOk)
    && (!AllGenerated(selected, r) ==>
          && r.judges == [] && r.generations != []
          && var last := r.generations[|r.generations| - 1];
             last.status != GenOk && r.stop == AtGeneration(last.status, last.question))
    && (AllGenerated(selected, r) ==>
          if |r.judges| == |selected| && forall k :: 0 <= k < |r.judges| ==> r.judges[k].status == JudgeOk
          then r.stop == NotStopped
          else r.judges != []
               && var last := r.judges[|r.judges| - 1];
                  last.status != JudgeOk && r.stop == AtJudge(last.status, last.question))
  }

  lemma RanAsRun(selected: seq<Question>, env: Environment, r: Summary, g: nat, j: nat)
    requires Ran(selected, env, r, g, j)
    ensures AsRun(selected, env, r)
  {
    hide ContextOf, LastIndex, Cases;
    ContextsAreOwn(selected, env);
    if g < |selected| {
      assert !r.generations[g].status.GenOk?;
    } else if j < |selected| {
      assert !r.judges[j].status.JudgeOk?;
    }
  }

  lemma {:induction false} GenCount(s: seq<GenRecord>)
    ensures CountGenOk(s) <= |s|
    ensures CountGenOk(s) == |s| <==> forall i :: 0 <= i < |s| ==> s[i].status.GenOk?
  {
    if s != [] { GenCount(s[..|s| - 1]); }
  }

  lemma {:induction false} JudgeCount(s: seq<JudgeRecord>)
    ensures CountJudgeOk(s) <= |s|
    ensures CountJudgeOk(s) == |s| <==> forall i :: 0 <= i < |s| ==> s[i].status.JudgeOk?
  {
    if s != [] { JudgeCount(s[..|s| - 1]); }
  }

  // ---------------------------------------------------------------- the reported cases

  lemma {:induction false} LastGenAt(selected: seq<Question>, s: seq<GenRecord>, i: nat)
    requires Distinct(selected) && i < |selected| && |s| <= |selected|
    requires forall k :: 0 <= k < |s| ==> s[k].question == selected[k]
    ensures LastGen(s, selected[i]) == if i < |s| then Some(s[i].status) else None
  {
    if s != [] { LastGenAt(selected, s[..|s| - 1], i); }
  }

  lemma {:induction false} LastJudgeAt(selected: seq<Question>, s: seq<JudgeRecord>, i: nat)
    requires Distinct(selected) && i < |selected| && |s| <= |selected|
    requires forall k :: 0 <= k < |s| ==> s[k].question == selected[k]
    ensures LastJudge(s, selected[i]) == if i < |s| then Some(s[i].status) else None
  {
    if s != [] { LastJudgeAt(selected, s[..|s| - 1], i); }
  }

  /** Over distinct questions, a case is reported NOT_RUN in a phase exactly when that phase stopped before
      reaching it; a reached case carries its own outcome. */
  lemma NotRunIsTheUnreachedSuffix(selected: seq<Question>, env: Environment, r: Summary, g: nat, j: nat, i: nat)
    requires Distinct(selected) && Ran(selected, env, r, g, j) && i < |selected|
    ensures r.cases[i].generation ==
            if i < Reached(g, |selected|) then Some(GenerationOf(selected, env, selected[i]).status) else None
    ensures r.cases[i].judge ==
            if g == |selected| && i < Reached(j, |selected|) then Some(JudgementOf(selected, env, selected[i]).status) else None
  {
    LastGenAt(selected, r.generations, i);
    LastJudgeAt(selected, r.judges, i);
  }

  /** A complete run reports every case OK in both phases, and only a complete one does. */
  lemma CompleteIffAllCasesOk(selected: seq<Question>, env: Environment, r: Summary, g: nat, j: nat)
    requires Distinct(selected) && Ran(selected, env, r, g, j)
    ensures r.stop == NotStopped <==>
            forall i :: 0 <= i < |r.cases| ==> r.cases[i].generation == Some(GenOk) && r.cases[i].judge == Some(JudgeOk)
  {
    if g < |selected| {
      NotRunIsTheUnreachedSuffix(selected, env, r, g, j, g);
    } else if j < |selected| {
      NotRunIsTheUnreachedSuffix(selected, env, r, g, j, j);
    }
    forall i | 0 <= i < |selected| && r.stop == NotStopped
      ensures r.cases[i].generation == Some(GenOk) && r.cases[i].judge == Some(JudgeOk)
    {
      NotRunIsTheUnreachedSuffix(selected, env, r, g, j, i);
    }
  }
}
