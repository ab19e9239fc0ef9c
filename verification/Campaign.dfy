/** The resumable evaluation campaign (scripts/run_answer_scope_campaign.py) and the closure campaign around
    it (scripts/run_answer_scope_closure_campaign.py). The environment decides return codes, reports and
    promotion outcomes; the process may die after any save. `trace` is the history of saved states. */
module Campaign {
  import opened Outcomes

  datatype Stage = Offline | Tests | SentinelR1 | SentinelR2 | Reproducibility | N30 | Admission

  datatype Mark = MRunning | MPassed | MNoGo | MWaiting | MFailed

  datatype Status = Running | WaitingQuota | NoGo | Failed | ReadyToPromote | ClosedGoPromoted | ClosedNoGo

  type Digest = string

  datatype Manifest = Manifest(official: Digest, inputs: string)

  datatype State = State(status: Status, stages: map<Stage, Mark>, manifest: Manifest)

  /** What survives a crash: the saved state file and the protected official result. */
  datatype World = World(saved: Option<State>, official: Digest)

  // ---------------------------------------------------------------- stage order

  function Rank(st: Stage): nat {
    match st
    case Offline => 0 case Tests => 1 case SentinelR1 => 2 case SentinelR2 => 3
    case Reproducibility => 4 case N30 => 5 case Admission => 6
  }

  predicate Passed(s: State, st: Stage) { st in s.stages && s.stages[st].MPassed? }

  predicate AllPassedBefore(s: State, n: nat) {
    forall st :: Rank(st) < n ==> Passed(s, st)
  }

  /** When a stage may be started: everything before it has passed, except that the second sentinel may
      follow a first one that is NO-GO when the campaign is to continue after that. */
  predicate Gate(continue_: bool, s: State, st: Stage) {
    AllPassedBefore(s, Rank(st))
    || (st.SentinelR2? && continue_ && AllPassedBefore(s, 2) && SentinelR1 in s.stages && s.stages[SentinelR1].MNoGo?)
  }

  // ---------------------------------------------------------------- provider reports

  /** What the code reads of a report: its `passed` and `admission` fields if present, whether it is
      provider complete, whether it is a reproducibility audit, and whether it mentions quota or rate. */
  datatype Report = Report(passed: Option<bool>, admission: Option<bool>, providerComplete: bool, isAudit: bool, quota: bool)

  datatype Verdict = VPassed | VNoGo | VWaiting | Unknown

  function ProviderReportStatus(report: Option<Report>): Verdict {
    if report.None? then Unknown
    else
      var r := report.value;
      if r.passed == Some(true) then VPassed
      else if r.admission == Some(false) then VNoGo
      else if r.providerComplete then (if r.passed.Some? then VNoGo else VPassed)
      else if r.isAudit then VNoGo
      else if r.quota then VWaiting
      else Unknown
  }

  /** The report passes outright, or is a complete summary that says neither. */
  ghost predicate Passes(report: Option<Report>) {
    report.Some? && var r := report.value;
      r.passed == Some(true) || (r.passed == None && r.admission != Some(false) && r.providerComplete)
  }

  /** The report refuses: admission is denied, a complete sentinel did not pass, or a reproducibility audit that is
      not complete did not. */
  ghost predicate Refuses(report: Option<Report>) {
    report.Some? && var r := report.value;
      r.passed != Some(true)
      && (r.admission == Some(false) || (r.providerComplete && r.passed == Some(false)) || (!r.providerComplete && r.isAudit))
  }

  /** The run was stopped by the provider's quota before it was complete, and no verdict came first. */
  ghost predicate Waits(report: Option<Report>) {
    report.Some? && var r := report.value;
      r.passed != Some(true) && r.admission != Some(false) && !r.providerComplete && !r.isAudit && r.quota
  }

  lemma VerdictMeans(report: Option<Report>)
    ensures ProviderReportStatus(report) == VPassed <==> Passes(report)
    ensures ProviderReportStatus(report) == VNoGo <==> Refuses(report)
    ensures ProviderReportStatus(report) == VWaiting <==> Waits(report)
  {
    if report.Some? && report.value.passed.Some? {
      if report.value.passed.value {
        assert report.value.passed == Some(true);
      } else {
        assert report.value.passed == Some(false);
      }
    }
  }

  /** How one stage goes in one run: the report found before it is started, the command's exit, and the
      report found afterwards. */
  datatype StageRun = StageRun(before: Option<Report>, exitZero: bool, after: Option<Report>)

  datatype Environment = Environment(runs: map<Stage, StageRun>, admissionPassed: bool)

  function RunOf(env: Environment, st: Stage): StageRun {
    if st in env.runs then env.runs[st] else StageRun(None, false, None)
  }

  function HasReport(st: Stage): bool { Rank(st) >= 2 }

  datatype Ending = Continues | RaisedNoGo | RaisedWaiting | RaisedFailed

  // ---------------------------------------------------------------- what every save keeps

  /** How many stages must have passed, and stay passed, once this one was started. */
  function Needs(st: Stage): nat { if st.SentinelR2? then 2 else Rank(st) }

  /** A saved state is sound: a late stage that was ever started had everything before it passed - and it
      still has - and READY_TO_PROMOTE or a promoted closure mean that all seven stages are passed. */
  predicate Sound(s: State) {
    && (forall st :: st in s.stages ==> AllPassedBefore(s, Needs(st)))
    && (s.status.ReadyToPromote? || s.status.ClosedGoPromoted? ==> AllPassedBefore(s, 7))
  }

  /** One save within a campaign. Nothing leaves FAILED; a passed stage stays passed unless it is admission,
      refused by its own report; a stage is marked running only when its gate is open and it has not passed;
      and the official result changes only while the saved state says READY_TO_PROMOTE. */
  predicate Advance(continue_: bool, a: World, b: World) {
    && a.saved.Some? && b.saved.Some?
    && (var s, t := a.saved.value, b.saved.value;
        && t.manifest == s.manifest && !s.status.Failed?
        && KeepsPassed(s, t) && StartsGated(continue_, s, t)
        && (b.official != a.official ==> t == s && s.status.ReadyToPromote?))
  }

  predicate KeepsPassed(s: State, t: State) {
    forall st :: Passed(s, st) ==>
      Passed(t, st) || (st.Admission? && st in t.stages && t.stages[st].MNoGo? && t.status.NoGo?)
  }

  /** A stage whose mark appears, or turns to running, was free to start and had not passed. */
  predicate StartsGated(continue_: bool, s: State, t: State) {
    forall st :: st in t.stages && (st !in s.stages || (t.stages[st] != s.stages[st] && t.stages[st].MRunning?)) ==>
      !Passed(s, st) && Gate(continue_, s, st)
  }

  /** A fresh campaign replaces whatever was saved; its manifest pins the official result. */
  predicate Fresh(a: World, b: World) {
    b.saved.Some? && b.official == a.official && b.saved.value.status.Running? && b.saved.value.stages == map[]
    && b.saved.value.manifest.official == b.official
  }

  predicate SoundWorld(w: World) { w.saved.Some? ==> Sound(w.saved.value) }

  /** A history of saved states: each follows from the one before by one save, or starts a fresh campaign. */
  ghost predicate Legal(continue_: bool, t: seq<World>) {
    && (forall k :: 0 <= k < |t| ==> SoundWorld(t[k]))
    && (forall k :: 0 < k < |t| ==> Advance(continue_, t[k - 1], t[k]) || Fresh(t[k - 1], t[k]))
  }

  class Runner {
    /** Each campaign has its own state file, run by one command line: the closure's, which always continues
        after a NO-GO sentinel, or the campaign's own. */
    const closure: bool
    const continueAfterNoGo: bool
    var world: World
    var trace: seq<World>

    /** The whole history so far, restarts and crashes included. */
    ghost predicate Good() reads this {
      trace != [] && trace[|trace| - 1] == world && Legal(continueAfterNoGo, trace)
    }

    /** A campaign is under way and was not started anew since the trace had length `n`. */
    ghost predicate Going(n: nat) reads this {
      && Good() && world.saved.Some? && 0 < n <= |trace|
      && (forall k :: n <= k < |trace| ==> Advance(continueAfterNoGo, trace[k - 1], trace[k]))
    }

    constructor (official: Digest, closure: bool, continueAfterNoGo: bool)
      ensures Good() && world == World(None, official)
      ensures this.closure == closure && this.continueAfterNoGo == (closure || continueAfterNoGo)
    {
      this.closure, this.continueAfterNoGo := closure, closure || continueAfterNoGo;
      world := World(None, official);
      trace := [World(None, official)];
    }

    method Save(next: State, ghost n: nat)
      requires Going(n) && Sound(next) && Advance(continueAfterNoGo, world, World(Some(next), world.official))
      modifies this
      ensures Going(n) && world == World(Some(next), old(world.official)) && trace == old(trace) + [world]
    {
      world := World(Some(next), world.official);
      trace := trace + [world];
    }

    /** Record a stage's mark, and the overall status with it. */
    method MarkStage(st: Stage, mark: Mark, status: Status, ghost n: nat)
      requires Going(n) && !world.saved.value.status.Failed?
      requires Gate(continueAfterNoGo, world.saved.value, st)
      requires !Passed(world.saved.value, st) || (st.Admission? && mark.MNoGo? && status.NoGo?)
      requires !status.ReadyToPromote? && !status.ClosedGoPromoted?
      modifies this
      ensures Going(n) && trace == old(trace) + [world] && world.official == old(world.official)
      ensures var s := old(world.saved.value);
              world.saved == Some(s.(status := status, stages := s.stages[st := mark]))
    {
      var s := world.saved.value;
      var t := s.(status := status, stages := s.stages[st := mark]);
      MarkIsSound(continueAfterNoGo, s, st, mark, status);
      Save(t, n);
    }

    /** Record an overall status under the campaign's own key; no stage changes. */
    method MarkCampaign(status: Status, ghost n: nat)
      requires Going(n) && !world.saved.value.status.Failed?
      requires status.ReadyToPromote? || status.ClosedGoPromoted? ==> AllPassedBefore(world.saved.value, 7)
      modifies this
      ensures Going(n) && trace == old(trace) + [world] && world.official == old(world.official)
      ensures world.saved == Some(old(world.saved.value).(status := status))
    {
      Save(world.saved.value.(status := status), n);
    }

    /** Run one stage's command. */
    method RunCommand(st: Stage, run: StageRun, ghost n: nat) returns (e: Ending)
      requires Going(n) && !world.saved.value.status.Failed?
      requires Gate(continueAfterNoGo, world.saved.value, st) && !Passed(world.saved.value, st)
      modifies this
      ensures Going(n) && old(trace) <= trace && world.official == old(world.official)
      ensures e == CommandEnding(st, run)
      ensures world.saved == Some(AfterCommand(old(world.saved.value), st, run))
      ensures CommandRan(old(world.saved.value), world.saved.value, st, run, e)
      ensures trace == old(trace) + [World(Some(old(world.saved.value).(stages := old(world.saved.value.stages)[st := MRunning])),
                                           old(world.official)), world]
    {
      CommandMeans(world.saved.value, st, run);
      hide CommandRan, Advance, Legal, SoundWorld;
      MarkRunning(st, n);
      var verdict := if HasReport(st) then ProviderReportStatus(run.after) else Unknown;
      var mark, status := MPassed, world.saved.value.status;
      e := Continues;
      if !run.exitZero && verdict.VWaiting? {
        mark, status, e := MWaiting, WaitingQuota, RaisedWaiting;
      } else if !run.exitZero && verdict.VNoGo? {
        mark, status, e := MNoGo, NoGo, RaisedNoGo;
      } else if !run.exitZero {
        mark, status, e := MFailed, Failed, RaisedFailed;
      }
      MarkedTwice(old(world.saved.value), st, mark, status);
      MarkEnd(st, mark, status, n);
    }

    method MarkRunning(st: Stage, ghost n: nat)
      requires Going(n) && !world.saved.value.status.Failed?
      requires Gate(continueAfterNoGo, world.saved.value, st) && !Passed(world.saved.value, st)
      modifies this
      ensures Going(n) && trace == old(trace) + [world] && world.official == old(world.official)
      ensures world.saved == Some(old(world.saved.value).(stages := old(world.saved.value.stages)[st := MRunning]))
      ensures Gate(continueAfterNoGo, world.saved.value, st)
    {
      NotReady(world.saved.value, st);
      GateStaysOpen(continueAfterNoGo, world.saved.value, st, MRunning);
      MarkStage(st, MRunning, world.saved.value.status, n);
    }

    /** Conclude a running stage. */
    method MarkEnd(st: Stage, mark: Mark, status: Status, ghost n: nat)
      requires Going(n) && !world.saved.value.status.Failed?
      requires Gate(continueAfterNoGo, world.saved.value, st) && !Passed(world.saved.value, st)
      requires status.ReadyToPromote? || status.ClosedGoPromoted? ==> status == world.saved.value.status
      modifies this
      ensures Going(n) && trace == old(trace) + [world] && world.official == old(world.official)
      ensures var s := old(world.saved.value);
              world.saved == Some(s.(status := status, stages := s.stages[st := mark]))
    {
      NotReady(world.saved.value, st);
      MarkStage(st, mark, status, n);
    }

    /** One pass of the sentinel loop. */
    method RunSentinel(st: Stage, run: StageRun, ghost n: nat) returns (e: Ending)
      requires Going(n) && !world.saved.value.status.Failed?
      requires st.SentinelR1? || st.SentinelR2?
      requires Gate(continueAfterNoGo, world.saved.value, st)
      modifies this
      ensures Going(n) && old(trace) <= trace && world.official == old(world.official)
      ensures e == SentinelEnding(continueAfterNoGo, old(world.saved.value), st, run)
      ensures world.saved == Some(AfterSentinel(old(world.saved.value), st, run))
      ensures SentinelRan(continueAfterNoGo, old(world.saved.value), world.saved.value, st, run, e)
    {
      SentinelMeans(continueAfterNoGo, world.saved.value, st, run);
      hide SentinelRan, Advance, Legal, SoundWorld;
      if Passed(world.saved.value, st) { return Continues; }
      NotReady(world.saved.value, st);
      var existing := ProviderReportStatus(run.before);
      if existing.VPassed? {
        MarkStage(st, MPassed, world.saved.value.status, n);
        return Continues;
      }
      if existing.VNoGo? {
        MarkStage(st, MNoGo, NoGo, n);
        return if continueAfterNoGo then Continues else RaisedNoGo;
      }
      e := RunCommand(st, run, n);
      if e.RaisedNoGo? && continueAfterNoGo { e := Continues; }
    }

    /** Run a stage unless it has passed; its gate must be open. */
    method RunUnlessPassed(st: Stage, run: StageRun, ghost n: nat) returns (e: Ending)
      requires Going(n) && !world.saved.value.status.Failed?
      requires AllPassedBefore(world.saved.value, Rank(st))
      modifies this
      ensures Going(n) && old(trace) <= trace && world.official == old(world.official)
      ensures e.Continues? ==> AllPassedBefore(world.saved.value, Rank(st) + 1) && !world.saved.value.status.Failed?
      ensures Stopped(e, world.saved.value.status)
      ensures e.Continues? ==> world.saved.value.status == old(world.saved.value.status)
      ensures e.Continues? <==> Passed(old(world.saved.value), st) || run.exitZero
      ensures !st.Admission? ==> (Passed(world.saved.value, Admission) <==> Passed(old(world.saved.value), Admission))
      ensures AllPassedBefore(old(world.saved.value), 7) ==> e.Continues? && world == old(world)
    {
      hide CommandRan, Advance, Legal, SoundWorld;
      if Passed(world.saved.value, st) {
        OneMorePassed(world.saved.value, st);
        return Continues;
      }
      ghost var s := world.saved.value;
      e := RunCommand(st, run, n);
      if e.Continues? {
        PassedAfterMark(s, st, world.saved.value.status);
        OneMorePassed(world.saved.value, st);
      }
    }

    /** The first sentinel has been dealt with; what it left decides whether the second may start. */
    ghost predicate AfterFirst() reads this {
      && world.saved.Some? && !world.saved.value.status.Failed? && AllPassedBefore(world.saved.value, 2)
      && (Passed(world.saved.value, SentinelR1)
          || (continueAfterNoGo && SentinelR1 in world.saved.value.stages && world.saved.value.stages[SentinelR1].MNoGo?))
    }

    method FirstSentinel(env: Environment, ghost n: nat) returns (e: Ending)
      requires Going(n) && !world.saved.value.status.Failed? && AllPassedBefore(world.saved.value, 2)
      modifies this
      ensures Going(n) && old(trace) <= trace && world.official == old(world.official)
      ensures e.Continues? ==> AfterFirst()
      ensures Stopped(e, world.saved.value.status)
      ensures Passed(old(world.saved.value), SentinelR1) ==> e.Continues? && world == old(world)
      ensures Passed(world.saved.value, Admission) <==> Passed(old(world.saved.value), Admission)
      ensures Green(env) ==> e.Continues? && Passed(world.saved.value, SentinelR1)
    {
      ghost var s := world.saved.value;
      e := RunSentinel(SentinelR1, RunOf(env, SentinelR1), n);
      if e.Continues? { SentinelOutcome(continueAfterNoGo, s, SentinelR1, RunOf(env, SentinelR1)); }
    }

    /** The second sentinel, and the stop when either is NO-GO. */
    method SecondSentinel(env: Environment, ghost n: nat) returns (e: Ending)
      requires Going(n) && AfterFirst()
      modifies this
      ensures Going(n) && old(trace) <= trace && world.official == old(world.official)
      ensures e.Continues? ==> AllPassedBefore(world.saved.value, 4) && !world.saved.value.status.Failed?
      ensures Stopped(e, world.saved.value.status)
      ensures AllPassedBefore(old(world.saved.value), 4) ==> e.Continues? && world == old(world)
      ensures Passed(world.saved.value, Admission) <==> Passed(old(world.saved.value), Admission)
      ensures Green(env) && Passed(old(world.saved.value), SentinelR1) ==> e.Continues?
    {
      hide Legal, SoundWorld, Advance;
      ghost var s := world.saved.value;
      assert Gate(continueAfterNoGo, s, SentinelR2) by { OneMorePassedIf(s, SentinelR1); }
      e := RunSentinel(SentinelR2, RunOf(env, SentinelR2), n);
      if !e.Continues? { return; }
      SentinelOutcome(continueAfterNoGo, s, SentinelR2, RunOf(env, SentinelR2));
      e := StopIfNoGo(n);
    }

    /** The stop after both sentinels when either is NO-GO. */
    method StopIfNoGo(ghost n: nat) returns (e: Ending)
      requires Going(n) && AfterFirst()
      requires Passed(world.saved.value, SentinelR2)
               || (SentinelR2 in world.saved.value.stages && world.saved.value.stages[SentinelR2].MNoGo?)
      modifies this
      ensures Going(n) && old(trace) <= trace && world.official == old(world.official)
      ensures world.saved.value.stages == old(world.saved.value.stages)
      ensures e.Continues? ==> world == old(world) && AllPassedBefore(world.saved.value, 4)
      ensures Stopped(e, world.saved.value.status)
      ensures e.Continues? <==> Passed(old(world.saved.value), SentinelR1) && Passed(old(world.saved.value), SentinelR2)
    {
      var stages := world.saved.value.stages;
      if (SentinelR1 in stages && stages[SentinelR1].MNoGo?) || (SentinelR2 in stages && stages[SentinelR2].MNoGo?) {
        MarkCampaign(NoGo, n);
        return RaisedNoGo;
      }
      OneMorePassed(world.saved.value, SentinelR1);
      OneMorePassed(world.saved.value, SentinelR2);
      e := Continues;
    }

    method RunSentinels(env: Environment, ghost n: nat) returns (e: Ending)
      requires Going(n) && !world.saved.value.status.Failed? && AllPassedBefore(world.saved.value, 2)
      modifies this
      ensures Going(n) && old(trace) <= trace && world.official == old(world.official)
      ensures e.Continues? ==> AllPassedBefore(world.saved.value, 4) && !world.saved.value.status.Failed?
      ensures Stopped(e, world.saved.value.status)
      ensures Passed(world.saved.value, Admission) <==> Passed(old(world.saved.value), Admission)
      ensures AllPassedBefore(old(world.saved.value), 7) ==> e.Continues? && world == old(world)
      ensures Green(env) ==> e.Continues?
    {
      e := FirstSentinel(env, n);
      if e.Continues? {
        e := SecondSentinel(env, n);
      }
    }

    /** Two consecutive stages. */
    method RunPair(st: Stage, next: Stage, env: Environment, ghost n: nat) returns (e: Ending)
      requires Going(n) && !world.saved.value.status.Failed?
      requires AllPassedBefore(world.saved.value, Rank(st)) && Rank(next) == Rank(st) + 1 && !next.Admission?
      modifies this
      ensures Going(n) && old(trace) <= trace && world.official == old(world.official)
      ensures Stopped(e, world.saved.value.status)
      ensures e.Continues? ==> AllPassedBefore(world.saved.value, Rank(next) + 1) && !world.saved.value.status.Failed?
      ensures e.Continues? ==> (Passed(world.saved.value, Admission) <==> Passed(old(world.saved.value), Admission))
      ensures AllPassedBefore(old(world.saved.value), 7) ==> e.Continues? && world == old(world)
      ensures Green(env) ==> e.Continues?
    {
      e := RunUnlessPassed(st, RunOf(env, st), n);
      if e.Continues? {
        e := RunUnlessPassed(next, RunOf(env, next), n);
      }
    }

    /** Every stage before admission, in order. */
    method RunEarlyStages(env: Environment, ghost n: nat) returns (e: Ending)
      requires Going(n) && !world.saved.value.status.Failed?
      modifies this
      ensures Going(n) && old(trace) <= trace && world.official == old(world.official)
      ensures Stopped(e, world.saved.value.status)
      ensures e.Continues? ==> AllPassedBefore(world.saved.value, 6) && !world.saved.value.status.Failed?
      ensures e.Continues? ==> (Passed(world.saved.value, Admission) <==> Passed(old(world.saved.value), Admission))
      ensures AllPassedBefore(old(world.saved.value), 7) ==> e.Continues? && world == old(world)
      ensures Green(env) ==> e.Continues?
    {
      e := RunPair(Offline, Tests, env, n);
      if !e.Continues? { return; }
      e := RunSentinels(env, n);
      if !e.Continues? { return; }
      e := RunPair(Reproducibility, N30, env, n);
    }

    /** The state saved before the last one had all seven stages passed. */
    ghost predicate AdmittedJustBefore() reads this {
      |trace| > 1 && Admitted(trace[|trace| - 2])
    }

    /** Admission, with its report read again after the command has passed. */
    method Admit(env: Environment, ghost n: nat) returns (e: Ending)
      requires Going(n) && !world.saved.value.status.Failed? && AllPassedBefore(world.saved.value, 6)
      modifies this
      ensures Going(n) && old(trace) <= trace && world.official == old(world.official)
      ensures Stopped(e, world.saved.value.status)
      ensures e.Continues? ==> AllPassedBefore(world.saved.value, 7) && !world.saved.value.status.Failed?
      ensures e.Continues? <==>
                Passed(old(world.saved.value), Admission) || (RunOf(env, Admission).exitZero && env.admissionPassed)
      ensures AllPassedBefore(old(world.saved.value), 7) ==> e.Continues? && world == old(world)
      ensures AdmissionRefused(env, old(world.saved.value)) ==> AdmittedJustBefore()
    {
      if Passed(world.saved.value, Admission) {
        OneMorePassed(world.saved.value, Admission);
        return Continues;
      }
      e := RunUnlessPassed(Admission, RunOf(env, Admission), n);
      if e.Continues? && !env.admissionPassed {
        RefuseAdmission(n);
        e := RaisedNoGo;
      }
    }

    method RefuseAdmission(ghost n: nat)
      requires Going(n) && !world.saved.value.status.Failed? && AllPassedBefore(world.saved.value, 7)
      modifies this
      ensures Going(n) && old(trace) <= trace && world.official == old(world.official)
      ensures world.saved.value.status.NoGo? && AdmittedJustBefore()
    {
      ghost var before := world;
      assert AllPassedBefore(before.saved.value, 6);
      MarkStage(Admission, MNoGo, NoGo, n);
      assert trace[|trace| - 2] == before;
    }

    /** All stages in order, up to READY_TO_PROMOTE. */
    method RunOnce(env: Environment, ghost n: nat) returns (e: Ending)
      requires Going(n) && !world.saved.value.status.Failed?
      modifies this
      ensures Going(n) && old(trace) <= trace && world.official == old(world.official)
      ensures Stopped(e, world.saved.value.status)
      ensures e.Continues? ==> world.saved.value.status.ReadyToPromote?
      ensures e.Continues? && !Passed(old(world.saved.value), Admission) ==> env.admissionPassed
      ensures AllPassedBefore(old(world.saved.value), 7) ==> e.Continues? && world.official == old(world.official)
      ensures Green(env) ==> e.Continues?
    {
      e := RunEarlyStages(env, n);
      if !e.Continues? { return; }
      e := Admit(env, n);
      if !e.Continues? { return; }
      MarkCampaign(ReadyToPromote, n);
    }

    // -------------------------------------------------------------- the command lines

    predicate Drifted(inputs: string) reads this {
      world.saved.Some? && world.saved.value.manifest != Manifest(world.official, inputs)
    }

    /** Resume the saved campaign, refuse it if anything it pins has changed, or start a new one. */
    method LoadOrCreate(inputs: string, restart: bool) returns (raised: bool)
      requires Good()
      modifies this
      ensures Good() && old(trace) <= trace && world.official == old(world.official)
      ensures raised <==> !restart && old(world.saved).Some?
                          && old(world.saved).value.manifest != Manifest(old(world.official), inputs)
      ensures raised || (!restart && old(world.saved).Some?) ==> trace == old(trace) && world == old(world)
      ensures !raised ==> world.saved.Some? && world.saved.value.manifest == Manifest(world.official, inputs)
      ensures !raised && (restart || old(world.saved).None?) ==>
                world.saved.value.status.Running? && world.saved.value.stages == map[] && trace == old(trace) + [world]
    {
      var manifest := Manifest(world.official, inputs);
      if world.saved.Some? && !restart {
        return world.saved.value.manifest != manifest;
      }
      world := World(Some(State(Running, map[], manifest)), world.official);
      trace := trace + [world];
      raised := false;
    }

    /** The campaign's own command line. Failed, and NO-GO unless it may continue, are terminal. */
    method BaseMain(inputs: string, restart: bool, env: Environment) returns (code: Result<int>)
      requires Good()
      modifies this
      ensures Good() && old(trace) <= trace && world.official == old(world.official)
      ensures code.Ok? ==> world.saved.Some? && world.saved.value.manifest == Manifest(world.official, inputs)
      ensures code == Ok(0) ==> world.saved.value.status.ReadyToPromote?
      ensures code == Ok(75) ==> world.saved.value.status.WaitingQuota?
      ensures code.Ok? ==> code.value in {0, 2, 75}
      ensures code == Ok(2) ==> world.saved.value.status.NoGo? || world.saved.value.status.Failed?
      ensures code.Raised? ==> (!restart && old(Drifted(inputs)) && trace == old(trace))
                               || (world.saved.Some? && world.saved.value.status.Failed?)
      ensures !restart && !old(Drifted(inputs)) && (old(Has(Failed)) || (old(Has(NoGo)) && !continueAfterNoGo)) ==>
                code == Ok(2) && trace == old(trace)
      ensures !restart && old(Drifted(inputs)) ==> code.Raised? && trace == old(trace)
      ensures Green(env) && (restart || !(old(Drifted(inputs)) || old(Has(Failed)) || (old(Has(NoGo)) && !continueAfterNoGo))) ==>
                code == Ok(0)
    {
      var drift := LoadOrCreate(inputs, restart);
      if drift { return Raised("campaign manifest drifted"); }
      if world.saved.value.status.Failed? || (world.saved.value.status.NoGo? && !continueAfterNoGo) {
        return Ok(2);
      }
      var e := Launch(env);
      match e
      case Continues => code := Ok(0);
      case RaisedWaiting => code := Ok(75);
      case RaisedNoGo => code := Ok(2);
      case RaisedFailed => code := Raised("stage failed");
    }

    method Launch(env: Environment) returns (e: Ending)
      requires Good() && world.saved.Some? && !world.saved.value.status.Failed?
      modifies this
      ensures Good() && old(trace) <= trace && world.official == old(world.official)
      ensures world.saved.Some? && world.saved.value.manifest == old(world.saved).value.manifest
      ensures Stopped(e, world.saved.value.status)
      ensures e.Continues? ==> world.saved.value.status.ReadyToPromote?
      ensures AllPassedBefore(old(world.saved).value, 7) ==> e.Continues?
      ensures Green(env) ==> e.Continues?
    {
      ghost var n := |trace|;
      assert Going(n);
      e := RunOnce(env, n);
      ManifestKept(n - 1);
    }

    lemma ManifestKept(from: nat)
      requires Going(from + 1) && trace[from].saved.Some?
      ensures world.saved.value.manifest == trace[from].saved.value.manifest
    {
      var k := from;
      while k < |trace| - 1
        invariant from <= k < |trace| && trace[k].saved.Some?
        invariant trace[k].saved.value.manifest == trace[from].saved.value.manifest
      {
        assert Advance(continueAfterNoGo, trace[k], trace[k + 1]);
        k := k + 1;
      }
    }

    /** The dry run, the promotion itself, and the closing record. The official result may have been
        replaced even when this raises. */
    method PromoteAndClose(p: Promotion) returns (raised: bool)
      requires Good() && world.saved.Some? && world.saved.value.status.ReadyToPromote? && p.Possible()
      modifies this
      ensures Good() && old(trace) <= trace && world.saved.Some?
      ensures raised <==> !(p.inputsRead && p.dryRunOk && p.applyOk && p.official && p.receiptRead)
      ensures raised ==> world.saved == old(world.saved)
      ensures world.official == if p.inputsRead && p.dryRunOk && p.applied.Some? then p.applied.value else old(world.official)
      ensures !raised ==> world.saved == Some(old(world.saved).value.(status := ClosedGoPromoted)) && p.applied.Some?
    {
      if !p.inputsRead { return true; }
      if !p.dryRunOk { return true; }
      if p.applied.Some? { Replace(p.applied.value); }
      if !p.applyOk { return true; }
      if !p.official { return true; }
      if !p.receiptRead { return true; }
      Close(ClosedGoPromoted);
      raised := false;
    }

    method Replace(official: Digest)
      requires Good() && world.saved.Some? && world.saved.value.status.ReadyToPromote?
      modifies this
      ensures Good() && trace == old(trace) + [world] && world == World(old(world.saved), official)
    {
      assert Advance(continueAfterNoGo, world, World(world.saved, official));
      world := World(world.saved, official);
      trace := trace + [world];
    }

    method Close(status: Status)
      requires Good() && world.saved.Some? && !world.saved.value.status.Failed?
      requires !status.ReadyToPromote? && (status.ClosedGoPromoted? ==> world.saved.value.status.ReadyToPromote?)
      modifies this
      ensures Good() && trace == old(trace) + [world]
      ensures world == World(Some(old(world.saved).value.(status := status)), old(world.official))
    {
      assert Going(|trace|);
      MarkCampaign(status, |trace|);
    }

    /** The closure command line around the campaign. */
    method ClosureMain(inputs: string, restart: bool, env: Environment, p: Promotion) returns (code: Result<int>)
      requires Good() && p.Possible()
      modifies this
      ensures Good() && old(trace) <= trace
      ensures code.Raised? ==> (!restart && old(Drifted(inputs)) && trace == old(trace) && world == old(world))
                               || (world.saved.Some? && world.saved.value.status.Failed?)
      ensures !restart && old(Drifted(inputs)) ==> code.Raised? && trace == old(trace) && world == old(world)
      ensures !restart && !old(Drifted(inputs)) && old(Has(ClosedGoPromoted)) ==> code == Ok(0) && trace == old(trace)
      ensures !restart && !old(Drifted(inputs)) && old(Has(ClosedNoGo)) ==> code == Ok(2) && trace == old(trace)
      ensures !restart && !old(Drifted(inputs)) && old(Has(ReadyToPromote)) ==> code == Ok(if p.Succeeds() then 0 else 1)
      ensures p.Succeeds() && Green(env) && (restart || (!old(Drifted(inputs)) && old(Open()))) ==> code == Ok(0)
      ensures Outcome(code)
      ensures Has(ClosedNoGo) ==> world.official == old(world.official)
    {
      if !restart {
        var drift := LoadOrCreate(inputs, false);
        if drift { return Raised("campaign manifest drifted"); }
        if world.saved.value.status.ClosedGoPromoted? { return Ok(0); }
        if world.saved.value.status.ClosedNoGo? { return Ok(2); }
        if world.saved.value.status.ReadyToPromote? {
          var failed := PromoteAndClose(p);
          return Ok(if failed then 1 else 0);
        }
      }
      code := Evaluate(inputs, restart, env, p);
    }

    ghost predicate Has(status: Status) reads this { world.saved.Some? && world.saved.value.status == status }

    /** Nothing saved yet, or a campaign that has not reached an end. */
    ghost predicate Open() reads this {
      !Has(Failed) && (Has(NoGo) ==> continueAfterNoGo) && !Has(ClosedGoPromoted) && !Has(ClosedNoGo)
    }

    /** What an exit code of the closure command line says about the saved state. */
    ghost predicate Outcome(code: Result<int>) reads this {
      code.Ok? ==>
        && code.value in {0, 1, 2, 75}
        && (code.value == 0 ==> Has(ClosedGoPromoted))
        && (code.value == 1 ==> Has(Failed) || Has(ReadyToPromote))
        && (code.value == 2 ==> Has(ClosedNoGo) || Has(Failed))
        && (code.value == 75 ==> Has(WaitingQuota))
    }

    /** Run the campaign and close it one way or the other. */
    method Evaluate(inputs: string, restart: bool, env: Environment, p: Promotion) returns (code: Result<int>)
      requires Good() && p.Possible()
      modifies this
      ensures Good() && old(trace) <= trace
      ensures code.Raised? ==> (!restart && old(Drifted(inputs)) && trace == old(trace)) || Has(Failed)
      ensures p.Succeeds() && Green(env) && (restart || (!old(Drifted(inputs)) && old(Open()))) ==> code == Ok(0)
      ensures Outcome(code)
      ensures Has(ClosedNoGo) ==> world.official == old(world.official)
    {
      code := BaseMain(inputs, restart, env);
      if code.Raised? { return; }
      var drift := LoadOrCreate(inputs, false);
      assert !drift;
      if code.value == 0 {
        var failed := PromoteAndClose(p);
        if failed {
          Close(Failed);
          return Ok(1);
        }
      } else if code.value == 2 && world.saved.value.status.NoGo? {
        Close(ClosedNoGo);
      }
    }

    /** The process dies: nothing after the first `k` saves of the history happened. */
    method Crash(k: nat)
      requires Good() && 0 < k <= |trace|
      modifies this
      ensures Good() && trace == old(trace)[..k] && world == trace[k - 1]
    {
      world := trace[k - 1];
      trace := trace[..k];
    }

    /** A crash between the two admission saves leaves a campaign that the next run declares ready,
        whatever its own reports say, although the admission report did not pass. */
    method CrashInAdmissionWindow(refused: Environment, next: Environment, ghost n: nat) returns (e: Ending)
      requires Going(n) && !world.saved.value.status.Failed? && AllPassedBefore(world.saved.value, 6)
      requires AdmissionRefused(refused, world.saved.value)
      modifies this
      ensures e.Continues? && world.saved.Some? && world.saved.value.status.ReadyToPromote? && !refused.admissionPassed
    {
      var _ := Admit(refused, n);
      assert Admitted(trace[|trace| - 2]);
      Crash(|trace| - 1);
      assert Admitted(world);
      e := Launch(next);
    }
  }

  /** How a guarded promotion goes: whether its inputs can be read, the dry run passes, the official
      result is replaced (and by what), the applying run exits with zero, the replaced result says it is
      official, and the receipt can be read. An applying run that exits with zero has replaced the result. */
  datatype Promotion = Promotion(inputsRead: bool, dryRunOk: bool, applied: Option<Digest>, applyOk: bool,
                                 official: bool, receiptRead: bool)
  {
    predicate Possible() { applyOk ==> applied.Some? }

    predicate Succeeds() { inputsRead && dryRunOk && applyOk && official && receiptRead }
  }

  predicate Admitted(w: World) {
    w.saved.Some? && AllPassedBefore(w.saved.value, 7) && !w.saved.value.status.Failed?
  }

  /** Every stage's command exits with zero, no sentinel report found beforehand is a NO-GO, and the
      admission report passes. */
  predicate Green(env: Environment) {
    env.admissionPassed
    && forall st {:trigger RunOf(env, st)} :: RunOf(env, st).exitZero && !ProviderReportStatus(RunOf(env, st).before).VNoGo?
  }

  /** The admission command exits with zero although its report does not pass. */
  predicate AdmissionRefused(env: Environment, s: State) {
    !Passed(s, Admission) && RunOf(env, Admission).exitZero && !env.admissionPassed
  }

  /** A run that stops leaves the status that says why. */
  predicate Stopped(e: Ending, status: Status) {
    match e
    case Continues => true
    case RaisedNoGo => status.NoGo?
    case RaisedWaiting => status.WaitingQuota?
    case RaisedFailed => status.Failed?
  }

  lemma OneMorePassed(s: State, st: Stage)
    requires AllPassedBefore(s, Rank(st)) && Passed(s, st)
    ensures AllPassedBefore(s, Rank(st) + 1)
  {
    assert forall y :: Rank(y) == Rank(st) ==> y == st;
  }

  lemma OneMorePassedIf(s: State, st: Stage)
    requires AllPassedBefore(s, Rank(st))
    ensures Passed(s, st) ==> AllPassedBefore(s, Rank(st) + 1)
  {
    if Passed(s, st) { OneMorePassed(s, st); }
  }

  lemma PassedAfterMark(s: State, st: Stage, status: Status)
    requires AllPassedBefore(s, Rank(st))
    ensures AllPassedBefore(s.(status := status, stages := s.stages[st := MPassed]), Rank(st))
  {
  }

  /** After a sentinel that let the campaign go on, it has passed or, if that is allowed, is NO-GO. */
  /** Nothing but this stage's mark and the overall status differs. */
  ghost predicate OnlyStage(s: State, t: State, st: Stage, mark: Mark, status: Status) {
    && t.manifest == s.manifest && t.status == status && st in t.stages && t.stages[st] == mark
    && forall x :: x != st ==> (x in t.stages <==> x in s.stages) && (x in s.stages ==> t.stages[x] == s.stages[x])
  }

  /** What running a stage comes to: a command that exits with zero has passed; otherwise a stage that leaves a
      report waits when the report tells of a quota stop and is NO-GO when it refuses, and everything else fails. */
  ghost predicate CommandRan(s: State, t: State, st: Stage, run: StageRun, e: Ending) {
    if run.exitZero then e == Continues && OnlyStage(s, t, st, MPassed, s.status)
    else if st !in {Offline, Tests} && Waits(run.after) then e == RaisedWaiting && OnlyStage(s, t, st, MWaiting, WaitingQuota)
    else if st !in {Offline, Tests} && Refuses(run.after) then e == RaisedNoGo && OnlyStage(s, t, st, MNoGo, NoGo)
    else e == RaisedFailed && OnlyStage(s, t, st, MFailed, Failed)
  }

  /** What a pass of the sentinel loop comes to: nothing for one that has passed; a report that is there already
      decides; and otherwise the command does, where a NO-GO need not stop the run. */
  ghost predicate SentinelRan(continue_: bool, s: State, t: State, st: Stage, run: StageRun, e: Ending) {
    if st in s.stages && s.stages[st] == MPassed then e == Continues && t == s
    else if Passes(run.before) then e == Continues && OnlyStage(s, t, st, MPassed, s.status)
    else if Refuses(run.before) then e == (if continue_ then Continues else RaisedNoGo) && OnlyStage(s, t, st, MNoGo, NoGo)
    else if continue_ && !run.exitZero && Refuses(run.after) then e == Continues && OnlyStage(s, t, st, MNoGo, NoGo)
    else CommandRan(s, t, st, run, e)
  }

  lemma SentinelOutcome(continue_: bool, s: State, st: Stage, run: StageRun)
    requires (st.SentinelR1? || st.SentinelR2?) && SentinelEnding(continue_, s, st, run).Continues?
    requires AllPassedBefore(s, 2)
    ensures var t := AfterSentinel(s, st, run);
            && AllPassedBefore(t, 2) && (s.status.Failed? || !t.status.Failed?)
            && (Passed(t, st) || (continue_ && st in t.stages && t.stages[st].MNoGo?))
            && (forall y :: y != st ==> (y in t.stages <==> y in s.stages) && (y in s.stages ==> t.stages[y] == s.stages[y]))
  {
  }

  /** How a stage's command ends: exit code zero decides first, then the report it left. */
  function CommandEnding(st: Stage, run: StageRun): Ending {
    if run.exitZero then Continues
    else
      match if HasReport(st) then ProviderReportStatus(run.after) else Unknown
      case VWaiting => RaisedWaiting
      case VNoGo => RaisedNoGo
      case _ => RaisedFailed
  }

  function EndMark(e: Ending): Mark {
    match e case Continues => MPassed case RaisedNoGo => MNoGo case RaisedWaiting => MWaiting case RaisedFailed => MFailed
  }

  function EndStatus(e: Ending, status: Status): Status {
    match e case Continues => status case RaisedNoGo => NoGo case RaisedWaiting => WaitingQuota case RaisedFailed => Failed
  }

  function AfterCommand(s: State, st: Stage, run: StageRun): State {
    var e := CommandEnding(st, run);
    s.(status := EndStatus(e, s.status), stages := s.stages[st := EndMark(e)])
  }

  function SentinelEnding(continue_: bool, s: State, st: Stage, run: StageRun): Ending {
    if Passed(s, st) || ProviderReportStatus(run.before).VPassed? then Continues
    else
      var e := if ProviderReportStatus(run.before).VNoGo? then RaisedNoGo else CommandEnding(st, run);
      if e.RaisedNoGo? && continue_ then Continues else e
  }

  function AfterSentinel(s: State, st: Stage, run: StageRun): State {
    if Passed(s, st) then s
    else if ProviderReportStatus(run.before).VPassed? then s.(stages := s.stages[st := MPassed])
    else if ProviderReportStatus(run.before).VNoGo? then s.(status := NoGo, stages := s.stages[st := MNoGo])
    else AfterCommand(s, st, run)
  }

  lemma CommandMeans(s: State, st: Stage, run: StageRun)
    ensures CommandRan(s, AfterCommand(s, st, run), st, run, CommandEnding(st, run))
  {
    VerdictMeans(run.after);
  }

  lemma SentinelMeans(continue_: bool, s: State, st: Stage, run: StageRun)
    requires st.SentinelR1? || st.SentinelR2?
    ensures SentinelRan(continue_, s, AfterSentinel(s, st, run), st, run, SentinelEnding(continue_, s, st, run))
  {
    VerdictMeans(run.before);
    VerdictMeans(run.after);
  }

  lemma MarkedTwice(s: State, st: Stage, mark: Mark, status: Status)
    ensures var t := s.(stages := s.stages[st := MRunning]);
            t.(status := status, stages := t.stages[st := mark]) == s.(status := status, stages := s.stages[st := mark])
  {
    assert s.stages[st := MRunning][st := mark] == s.stages[st := mark];
  }

  lemma NotReady(s: State, st: Stage)
    requires Sound(s) && !Passed(s, st)
    ensures !s.status.ReadyToPromote? && !s.status.ClosedGoPromoted?
  {
    assert Rank(st) < 7;
  }

  /** Marking a stage that has not passed leaves its own gate open. */
  lemma GateStaysOpen(continue_: bool, s: State, st: Stage, mark: Mark)
    requires Gate(continue_, s, st) && !Passed(s, st)
    ensures Gate(continue_, s.(stages := s.stages[st := mark]), st)
  {
    var t := s.(stages := s.stages[st := mark]);
    assert forall y :: y != st ==> (Passed(t, y) <==> Passed(s, y));
  }

  lemma MarkIsSound(continue_: bool, s: State, st: Stage, mark: Mark, status: Status)
    requires Sound(s) && Gate(continue_, s, st)
    requires !Passed(s, st) || (st.Admission? && mark.MNoGo? && status.NoGo?)
    requires !status.ReadyToPromote? && !status.ClosedGoPromoted?
    ensures var t := s.(status := status, stages := s.stages[st := mark]);
            Sound(t) && KeepsPassed(s, t) && StartsGated(continue_, s, t)
  {
    var t := s.(status := status, stages := s.stages[st := mark]);
    forall x | x in t.stages ensures AllPassedBefore(t, Needs(x)) {
      assert AllPassedBefore(s, Needs(x));
      forall y | Rank(y) < Needs(x) ensures Passed(t, y) {
        assert Passed(s, y);
      }
    }
  }

  // ---------------------------------------------------------------- what every history keeps

  /** No restart between the states `i` and `j`. */
  ghost predicate SameCampaign(continue_: bool, t: seq<World>, i: nat, j: nat)
    requires i <= j < |t|
  {
    forall k :: i < k <= j ==> Advance(continue_, t[k - 1], t[k])
  }

  /** A failed campaign is only ever followed by a fresh one. */
  lemma FailedNeedsRestart(continue_: bool, t: seq<World>, i: nat)
    requires Legal(continue_, t) && i + 1 < |t| && t[i].saved.Some? && t[i].saved.value.status.Failed?
    ensures Fresh(t[i], t[i + 1])
  {
    assert t[i + 1 - 1] == t[i];
  }

  /** Within one campaign a passed stage other than admission stays passed, over any number of runs. */
  lemma {:induction false} PassedStays(continue_: bool, t: seq<World>, i: nat, j: nat, st: Stage)
    requires i <= j < |t| && SameCampaign(continue_, t, i, j) && t[i].saved.Some?
    requires Passed(t[i].saved.value, st) && !st.Admission?
    ensures t[j].saved.Some? && Passed(t[j].saved.value, st)
    decreases j
  {
    if i < j {
      PassedStays(continue_, t, i, j - 1, st);
      assert Advance(continue_, t[j - 1], t[j]);
    }
  }

  /** When a late stage is running for the first time, or again, everything before it is recorded as
      passed, then and ever after. */
  lemma LateStageIsGated(continue_: bool, t: seq<World>, i: nat, j: nat, st: Stage, earlier: Stage)
    requires Legal(continue_, t) && i <= j < |t| && SameCampaign(continue_, t, i, j) && t[i].saved.Some?
    requires st in t[i].saved.value.stages && Rank(st) >= 4 && Rank(earlier) < Rank(st)
    ensures t[j].saved.Some? && Passed(t[j].saved.value, earlier)
  {
    assert SoundWorld(t[i]);
    assert AllPassedBefore(t[i].saved.value, Needs(st));
    assert Passed(t[i].saved.value, earlier);
    PassedStays(continue_, t, i, j, earlier);
  }

  /** The protected official result changes only while the campaign is READY_TO_PROMOTE with all seven
      stages passed. */
  lemma OfficialChangesOnlyWhenReady(continue_: bool, t: seq<World>, k: nat)
    requires Legal(continue_, t) && 0 < k < |t| && t[k].official != t[k - 1].official
    ensures t[k - 1].saved.Some? && t[k - 1].saved.value.status.ReadyToPromote? && AllPassedBefore(t[k - 1].saved.value, 7)
    ensures t[k].saved == t[k - 1].saved
  {
    assert SoundWorld(t[k - 1]);
  }

  /** A campaign that says it was promoted had all seven stages passed. */
  lemma PromotedHasAllPassed(continue_: bool, t: seq<World>, k: nat, st: Stage)
    requires Legal(continue_, t) && k < |t| && t[k].saved.Some?
    requires t[k].saved.value.status.ClosedGoPromoted? || t[k].saved.value.status.ReadyToPromote?
    ensures Passed(t[k].saved.value, st)
  {
    assert SoundWorld(t[k]) && Rank(st) < 7;
  }

  /** Within a campaign the saved manifest no longer matches exactly when the official digest has changed: once
      promoted, the closed campaign is refused as drifted instead of being reported as closed. */
  lemma PromotedCampaignDrifts(continue_: bool, t: seq<World>, i: nat, j: nat, inputs: string)
    requires i <= j < |t| && SameCampaign(continue_, t, i, j) && t[i].saved.Some?
    requires t[i].saved.value.manifest == Manifest(t[i].official, inputs)
    ensures t[j].saved.Some?
    ensures t[j].saved.value.manifest != Manifest(t[j].official, inputs) <==> t[j].official != t[i].official
  {
    ManifestStays(continue_, t, i, j);
  }

  lemma {:induction false} ManifestStays(continue_: bool, t: seq<World>, i: nat, j: nat)
    requires i <= j < |t| && SameCampaign(continue_, t, i, j) && t[i].saved.Some?
    ensures t[j].saved.Some? && t[j].saved.value.manifest == t[i].saved.value.manifest
    decreases j
  {
    if i < j {
      ManifestStays(continue_, t, i, j - 1);
      assert Advance(continue_, t[j - 1], t[j]);
    }
  }

  /** One command line, cut short after `survives` of its saves (or not at all). */
  datatype Try = Try(inputs: string, restart: bool, env: Environment, promotion: Promotion, survives: Option<nat>)

  /** Every sequence of runs, resumes, restarts and crashes of one command line on its state file yields a legal
      history. */
  method Campaigns(runner: Runner, tries: seq<Try>)
    requires runner.Good() && forall i :: 0 <= i < |tries| ==> tries[i].promotion.Possible()
    modifies runner
    ensures runner.Good() && old(runner.trace) <= runner.trace
  {
    for i := 0 to |tries|
      invariant runner.Good() && old(runner.trace) <= runner.trace
    {
      var t, start := tries[i], |runner.trace|;
      if runner.closure {
        var _ := runner.ClosureMain(t.inputs, t.restart, t.env, t.promotion);
      } else {
        var _ := runner.BaseMain(t.inputs, t.restart, t.env);
      }
      if t.survives.Some? {
        runner.Crash(start + Min(t.survives.value, |runner.trace| - start));
      }
    }
  }
}
