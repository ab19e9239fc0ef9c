/** The pipeline run fixture (frontend/e2e/pipeline-fixtures.ts): staged runs with revision-checked
    cancellation and an event log per run. */
module PipelineFixture {
  import opened Outcomes
  import ES = EventStream

  datatype RunState = Queued | Running | Cancelling | Cancelled | Succeeded | Failed | Interrupted | OtherState {
    predicate Terminal() { Cancelled? || Succeeded? || Failed? || Interrupted? }
  }

  datatype EventType = CreatedEvent | StateChanged | CancelledEvent | CancellationRequested

  datatype RunEvent = RunEvent(sequence: int, kind: EventType, state: RunState)

  datatype PipelineRun = PipelineRun(state: RunState, revision: int)

  type RunId = string

  /** A run's log as a subscriber reads it. */
  function AsStream(log: seq<RunEvent>): (r: seq<ES.Event>)
    ensures |r| == |log|
    ensures forall i :: 0 <= i < |log| ==>
              r[i] == ES.Event(log[i].sequence, log[i].state in {Cancelled, Succeeded, RunState.Failed, Interrupted})
  {
    seq(|log|, i requires 0 <= i < |log| => ES.Event(log[i].sequence, log[i].state.Terminal()))
  }

  /** The history of one run: numbered without gaps from 1, ending in the run's current state. */
  ghost predicate Sound(run: PipelineRun, log: seq<RunEvent>) {
    && log != [] && log[0].kind.CreatedEvent?
    && log[|log| - 1].state == run.state
    && ES.Numbered(AsStream(log))
  }

  datatype World = World(runs: map<RunId, PipelineRun>, events: map<RunId, seq<RunEvent>>)

  ghost predicate Consistent(w: World) {
    w.runs.Keys == w.events.Keys
    && forall id {:trigger Sound(w.runs[id], w.events[id])} :: id in w.runs ==> Sound(w.runs[id], w.events[id])
  }

  /** Run `id` moves to `state`: its revision goes up by one and one event is appended. */
  function Advanced(w: World, id: RunId, state: RunState, kind: EventType): (r: World)
    requires id in w.runs && id in w.events
  {
    World(w.runs[id := PipelineRun(state, w.runs[id].revision + 1)],
          w.events[id := w.events[id] + [RunEvent(|w.events[id]| + 1, kind, state)]])
  }

  lemma AdvancedConsistent(w: World, id: RunId, state: RunState, kind: EventType)
    requires Consistent(w) && id in w.runs
    ensures Consistent(Advanced(w, id, state, kind))
  {
    var r := Advanced(w, id, state, kind);
    assert Sound(w.runs[id], w.events[id]);
    var before, after := AsStream(w.events[id]), AsStream(r.events[id]);
    assert forall i :: 0 <= i < |before| ==> after[i] == before[i];
    assert Sound(r.runs[id], r.events[id]);
  }

  function CancelState(run: PipelineRun): RunState { if run.state.Queued? then Cancelled else Cancelling }

  function CancelEvent(run: PipelineRun): EventType { if run.state.Queued? then CancelledEvent else CancellationRequested }

  datatype Reply = Reply(status: int, revision: Option<int>)

  function Decimal(n: nat): string {
    (if n < 10 then [] else Decimal(n / 10)) + ['0' + (n % 10) as char]
  }

  function StagedId(count: nat): RunId { "run-staged-" + Decimal(count) }

  /** Two staged runs never share an identifier: the counter is part of it. */
  lemma StagedIdsDiffer(a: nat, b: nat)
    requires StagedId(a) == StagedId(b)
    ensures a == b
  {
    assert StagedId(a)[|"run-staged-"|..] == Decimal(a) && StagedId(b)[|"run-staged-"|..] == Decimal(b);
    SameDecimal(a, b);
  }

  lemma {:induction false} SameDecimal(a: nat, b: nat)
    requires Decimal(a) == Decimal(b)
    ensures a == b
  {
    var n := |Decimal(a)| - 1;
    assert Decimal(a)[n] == '0' + (a % 10) as char && Decimal(b)[n] == '0' + (b % 10) as char;
    assert Decimal(a)[..n] == if a < 10 then [] else Decimal(a / 10);
    assert Decimal(b)[..n] == if b < 10 then [] else Decimal(b / 10);
    if a >= 10 && b >= 10 {
      SameDecimal(a / 10, b / 10);
    }
  }

  class PipelineServer {
    var executionEnabled: bool
    var runs: map<RunId, PipelineRun>
    var events: map<RunId, seq<RunEvent>>
    var stageCount: nat
    var cancelCount: nat
    var conflictOnce: bool

    function Snapshot(): World reads this { World(runs, events) }

    ghost predicate Valid() reads this { Consistent(Snapshot()) }

    constructor (initial: map<RunId, PipelineRun>, enabled: bool)
      ensures Valid() && runs == initial && executionEnabled == enabled
      ensures !conflictOnce && stageCount == 0 && cancelCount == 0
    {
      executionEnabled := enabled;
      runs := initial;
      events := map id | id in initial :: [RunEvent(1, CreatedEvent, initial[id].state)];
      stageCount, cancelCount, conflictOnce := 0, 0, false;
    }

    /** Staging counts every attempt that is allowed to execute, and names the run after the count. */
    method Stage(inputCount: nat, isolated: bool) returns (reply: Reply)
      requires Valid()
      modifies this`stageCount, this`runs, this`events
      ensures Valid()
      ensures stageCount == old(stageCount) + (if executionEnabled then 1 else 0)
      ensures reply.status == if !executionEnabled then 403 else if inputCount == 0 || !isolated then 422 else 201
      ensures reply.status == 201 ==>
                var id := StagedId(stageCount);
                runs == old(runs)[id := PipelineRun(Queued, 1)]
                && events == old(events)[id := [RunEvent(1, CreatedEvent, Queued)]]
                && reply.revision == Some(1)
      ensures reply.status != 201 ==> runs == old(runs) && events == old(events)
    {
      if !executionEnabled { return Reply(403, None); }
      stageCount := stageCount + 1;
      if inputCount == 0 || !isolated { return Reply(422, None); }
      var id := StagedId(stageCount);
      runs := runs[id := PipelineRun(Queued, 1)];
      events := events[id := [RunEvent(1, CreatedEvent, Queued)]];
      reply := Reply(201, Some(1));
    }

    /** Replace a run's state, raise its revision and log the change. */
    method Advance(id: RunId, state: RunState, kind: EventType)
      requires Valid() && id in runs
      modifies this`runs, this`events
      ensures Valid()
      ensures Snapshot() == Advanced(old(Snapshot()), id, state, kind)
      ensures runs == old(runs)[id := PipelineRun(state, old(runs)[id].revision + 1)]
      ensures events == old(events)[id := old(events)[id] + [RunEvent(|old(events)[id]| + 1, kind, state)]]
    {
      ghost var before := Snapshot();
      var history := events[id];
      runs := runs[id := PipelineRun(state, runs[id].revision + 1)];
      events := events[id := history + [RunEvent(|history| + 1, kind, state)]];
      assert events == Advanced(before, id, state, kind).events;
      AdvancedConsistent(before, id, state, kind);
    }

    ghost predicate Accepts(id: RunId, ifMatch: Option<int>) reads this {
      id in runs && executionEnabled && !conflictOnce && ifMatch == Some(runs[id].revision)
    }

    /** Accepted exactly when the request names the current revision and no conflict was forced. */
    method Cancel(id: RunId, ifMatch: Option<int>) returns (reply: Reply)
      requires Valid()
      modifies this`cancelCount, this`conflictOnce, this`runs, this`events
      ensures Valid()
      ensures reply.status == if id !in old(runs) then 404 else if !executionEnabled then 403
                              else if old(Accepts(id, ifMatch)) then 200 else 409
      ensures reply.status == 200 <==>
                id in old(runs) && executionEnabled && !old(conflictOnce) && ifMatch == Some(old(runs)[id].revision)
      ensures reply.status == 200 ==> reply.revision == Some(old(runs)[id].revision + 1)
      ensures reply.status == 200 ==>
                var (state, kind) := if old(runs)[id].state == Queued then (Cancelled, CancelledEvent)
                                     else (Cancelling, CancellationRequested);
                && runs == old(runs)[id := PipelineRun(state, old(runs)[id].revision + 1)]
                && events == old(events)[id := old(events)[id] + [RunEvent(|old(events)[id]| + 1, kind, state)]]
      ensures reply.status != 200 ==> runs == old(runs) && events == old(events)
      ensures Snapshot() == if old(Accepts(id, ifMatch))
                then Advanced(old(Snapshot()), id, CancelState(old(runs)[id]), CancelEvent(old(runs)[id]))
                else old(Snapshot())
      ensures conflictOnce == (old(conflictOnce) && !(id in old(runs) && executionEnabled))
      ensures cancelCount == old(cancelCount) + (if id in old(runs) && executionEnabled then 1 else 0)
    {
      if id !in runs { return Reply(404, None); }
      if !executionEnabled { return Reply(403, None); }
      cancelCount := cancelCount + 1;
      if conflictOnce || ifMatch != Some(runs[id].revision) {
        conflictOnce := false;
        return Reply(409, None);
      }
      Advance(id, CancelState(runs[id]), CancelEvent(runs[id]));
      reply := Reply(200, Some(runs[id].revision));
    }

    method EmitState(id: RunId, state: RunState)
      requires Valid()
      modifies this`runs, this`events
      ensures Valid()
      ensures Snapshot() == if id in old(runs) then Advanced(old(Snapshot()), id, state, StateChanged) else old(Snapshot())
      ensures id in old(runs) ==>
                && runs == old(runs)[id := PipelineRun(state, old(runs)[id].revision + 1)]
                && events == old(events)[id := old(events)[id] + [RunEvent(|old(events)[id]| + 1, StateChanged, state)]]
    {
      if id in runs {
        Advance(id, state, StateChanged);
      }
    }

    /** Two clients holding the same revision cannot both cancel: the second is refused and changes nothing. */
    method CancelTwice(id: RunId, revision: int) returns (first: Reply, second: Reply)
      requires Valid()
      modifies this`cancelCount, this`conflictOnce, this`runs, this`events
      ensures Valid() && !(first.status == 200 && second.status == 200)
      ensures first.status == 200 ==>
                && id in old(runs)
                && Snapshot() == Advanced(old(Snapshot()), id, CancelState(old(runs)[id]), CancelEvent(old(runs)[id]))
    {
      first := Cancel(id, Some(revision));
      second := Cancel(id, Some(revision));
    }
  }

  /** A run that ends and is not touched again is delivered to its subscriber completely. */
  lemma EndedRunIsDelivered(run: PipelineRun, log: seq<RunEvent>, polls: seq<ES.Poll>, r: ES.Report)
    requires Sound(run, log) && run.state.Terminal()
    requires forall i :: 0 <= i < |log| - 1 ==> !log[i].state.Terminal()
    requires ES.Reported(AsStream(log), polls, r)
    ensures |r.observed| == |log| && (forall i :: 0 <= i < |log| ==> r.observed[i] == log[i].sequence) && r.missing == 0
  {
    var stream := AsStream(log);
    assert ES.FirstTerminal(stream) == |stream| - 1 by {
      var f := ES.FirstTerminal(stream);
      assert stream[|stream| - 1].terminal;
    }
    ES.TerminalLastIsComplete(stream, polls, r);
  }

  /** Cancelling looks at the revision only, so it can log an event after a run has ended; some subscriber of
      that run then misses it. */
  lemma CancellingAnEndedRunIsMissed(w: World, id: RunId) returns (polls: seq<ES.Poll>, r: ES.Report)
    requires Consistent(w) && id in w.runs && w.runs[id].state.Terminal()
    ensures id in w.events
    ensures var log := AsStream(Advanced(w, id, CancelState(w.runs[id]), CancelEvent(w.runs[id])).events[id]);
            ES.Log(log) && ES.Reported(log, polls, r) && r.missing > 0
  {
    assert Sound(w.runs[id], w.events[id]);
    var next := Advanced(w, id, CancelState(w.runs[id]), CancelEvent(w.runs[id]));
    AdvancedConsistent(w, id, CancelState(w.runs[id]), CancelEvent(w.runs[id]));
    assert Sound(next.runs[id], next.events[id]);
    var log := AsStream(next.events[id]);
    assert log[|log| - 2].terminal;
    polls, r := ES.LateEventIsMissed(log);
  }
}
