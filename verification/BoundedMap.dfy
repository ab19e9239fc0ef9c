/** Asyncio lanes sharing one work index (scripts/benchmarks/scale_002_runtime.py, bounded_map).
    A lane runs without interruption from one await to the next, so one event is one such segment;
    which lane runs, and how each operation ends, is chosen by the environment. */
module BoundedMap {
  import opened Outcomes

  datatype Lane = Fresh | Awaiting(index: nat) | Done | Failed | Cancelled {
    predicate Ended() { Done? || Failed? || Cancelled? }
  }

  /** The calling coroutine: in the first gather, in the cleanup after it, or finished. */
  datatype Caller = Gathering | Cleanup | Returned | Raising

  /** `claims` is history: the lanes that took index 0, 1, 2, ... in that order. */
  datatype State<T> = State(next: nat, results: seq<Option<T>>, lanes: seq<Lane>, caller: Caller, claims: seq<nat>)

  datatype Event =
    | Start(lane: nat)     // the task runs for the first time
    | Completes(lane: nat) // the awaited operation returned
    | Fails(lane: nat)     // the awaited operation raised
    | Cancels(lane: nat)   // the task was cancelled during cleanup
    | Abort                // the first gather raised: a lane failed, or the caller itself was cancelled
    | Finish               // every task has ended

  /** The call's parameters: how many indices, how many lanes at most, and what each operation yields. */
  datatype Call<T> = Call(count: int, concurrency: int, operation: int -> T) {
    function Size(): nat { Max(0, count) }
    function Lanes(): nat { Max(0, Min(count, concurrency)) }
  }

  function Initial<T>(c: Call<T>): State<T> {
    State(0, seq(c.Size(), _ => None), seq(c.Lanes(), _ => Fresh), Gathering, [])
  }

  /** From the loop test to the next await: take the next index, or leave the loop. */
  function Claim<T>(c: Call<T>, s: State<T>, l: nat): State<T>
    requires l < |s.lanes|
  {
    if s.next < c.count then
      s.(next := s.next + 1, lanes := s.lanes[l := Awaiting(s.next)], claims := s.claims + [l])
    else
      s.(lanes := s.lanes[l := Done])
  }

  predicate Enabled<T>(s: State<T>, e: Event) {
    match e
    case Start(l) => s.caller.Gathering? && l < |s.lanes| && s.lanes[l].Fresh?
    case Completes(l) => (s.caller.Gathering? || s.caller.Cleanup?) && l < |s.lanes| && s.lanes[l].Awaiting?
                         && s.lanes[l].index < |s.results|
    case Fails(l) => (s.caller.Gathering? || s.caller.Cleanup?) && l < |s.lanes| && s.lanes[l].Awaiting?
    case Cancels(l) => s.caller.Cleanup? && l < |s.lanes| && !s.lanes[l].Ended()
    case Abort => s.caller.Gathering?
    case Finish => (s.caller.Gathering? && forall l :: 0 <= l < |s.lanes| ==> s.lanes[l].Done?)
                   || (s.caller.Cleanup? && forall l :: 0 <= l < |s.lanes| ==> s.lanes[l].Ended())
  }

  function Next<T>(c: Call<T>, s: State<T>, e: Event): State<T>
    requires Enabled(s, e)
  {
    match e
    case Start(l) => Claim(c, s, l)
    case Completes(l) =>
      var i := s.lanes[l].index;
      Claim(c, s.(results := s.results[i := Some(c.operation(i))]), l)
    case Fails(l) => s.(lanes := s.lanes[l := Failed])
    case Cancels(l) => s.(lanes := s.lanes[l := Cancelled])
    case Abort => s.(caller := Cleanup)
    case Finish => s.(caller := if s.caller.Gathering? then Returned else Raising)
  }

  /** A call begins with an empty list of results and one task, not yet run, for each lane. */
  lemma InitialIs<T>(c: Call<T>)
    ensures var s := Initial(c);
            && |s.results| == Max(0, c.count) && (forall i :: 0 <= i < |s.results| ==> s.results[i].None?)
            && |s.lanes| == Max(0, Min(c.count, c.concurrency)) && (forall l :: 0 <= l < |s.lanes| ==> s.lanes[l] == Fresh)
            && s.next == 0 && s.claims == [] && s.caller == Gathering
  {
  }

  /** What the environment may do in a state: start any task that has not run while the first gather lasts, end any
      awaited operation either way until the call has ended, cancel any task that has not ended during the cleanup,
      begin the cleanup while the first gather lasts, and let the call end once its tasks have. */
  lemma Possible<T>(s: State<T>, l: nat)
    ensures Enabled(s, Start(l)) <==> s.caller == Gathering && l < |s.lanes| && s.lanes[l] == Fresh
    ensures Enabled(s, Fails(l)) <==> s.caller !in {Returned, Raising} && l < |s.lanes| && s.lanes[l].Awaiting?
    ensures l < |s.lanes| && s.lanes[l].Awaiting? && s.lanes[l].index < |s.results| ==> (Enabled(s, Completes(l)) <==> Enabled(s, Fails(l)))
    ensures Enabled(s, Completes(l)) ==> Enabled(s, Fails(l))
    ensures Enabled(s, Cancels(l)) <==> s.caller == Cleanup && l < |s.lanes| && (s.lanes[l] == Fresh || s.lanes[l].Awaiting?)
    ensures Enabled(s, Abort) <==> s.caller == Gathering
    ensures Enabled(s, Finish) <==>
              || (s.caller == Gathering && forall k :: 0 <= k < |s.lanes| ==> s.lanes[k] == Done)
              || (s.caller == Cleanup && forall k :: 0 <= k < |s.lanes| ==> s.lanes[k] in {Done, Failed, Cancelled})
  {
    assert forall k :: 0 <= k < |s.lanes| ==> (s.lanes[k].Ended() <==> s.lanes[k] in {Done, Failed, Cancelled});
  }

  ghost predicate Run<T>(c: Call<T>, s: State<T>, events: seq<Event>, t: State<T>)
    decreases |events|
  {
    if events == [] then s == t
    else Enabled(s, events[0]) && Run(c, Next(c, s, events[0]), events[1..], t)
  }

  ghost predicate Reachable<T(!new)>(c: Call<T>, t: State<T>) {
    exists events :: Run(c, Initial(c), events, t)
  }

  // ---------------------------------------------------------------- what every reachable state satisfies

  /** Index `i` was claimed, and its lane either stored the result or still holds or lost it. */
  ghost predicate IndexAccounted<T>(c: Call<T>, s: State<T>, i: nat)
    requires i < s.next == |s.claims| && s.next <= |s.results|
  {
    && s.claims[i] < |s.lanes|
    && (s.results[i] == Some(c.operation(i))
        || (s.results[i].None?
            && var lane := s.lanes[s.claims[i]]; lane == Awaiting(i) || lane.Failed? || lane.Cancelled?))
  }

  ghost predicate LaneSound<T>(c: Call<T>, s: State<T>, l: nat)
    requires l < |s.lanes| && s.next == |s.claims| && s.next <= |s.results|
  {
    match s.lanes[l]
    case Awaiting(i) => i < s.next && s.claims[i] == l && s.results[i].None?
    case Done => s.next >= c.count
    case Cancelled => !s.caller.Gathering? && !s.caller.Returned?
    case _ => true
  }

  ghost predicate Inv<T>(c: Call<T>, s: State<T>) {
    && |s.results| == c.Size() && |s.lanes| == c.Lanes()
    && s.next == |s.claims| && s.next <= |s.results|
    && (forall i :: 0 <= i < s.next ==> IndexAccounted(c, s, i))
    && (forall i :: s.next <= i < |s.results| ==> s.results[i].None?)
    && (forall l :: 0 <= l < |s.lanes| ==> LaneSound(c, s, l))
    && (s.caller.Returned? ==> forall l :: 0 <= l < |s.lanes| ==> s.lanes[l].Done?)
    && (s.caller.Raising? ==> forall l :: 0 <= l < |s.lanes| ==> s.lanes[l].Ended())
  }

  lemma ClaimKeepsInv<T>(c: Call<T>, s: State<T>, l: nat)
    requires Inv(c, s) && l < |s.lanes| && !s.lanes[l].Ended() && !s.caller.Returned? && !s.caller.Raising?
    requires s.lanes[l].Awaiting? ==> s.lanes[l].index < |s.results|
    ensures var t := if s.lanes[l].Awaiting?
              then s.(results := s.results[s.lanes[l].index := Some(c.operation(s.lanes[l].index))]) else s;
            Inv(c, Claim(c, t, l))
  {
    var t := if s.lanes[l].Awaiting?
      then s.(results := s.results[s.lanes[l].index := Some(c.operation(s.lanes[l].index))]) else s;
    var u := Claim(c, t, l);
    assert LaneSound(c, s, l);
    forall i | 0 <= i < u.next ensures IndexAccounted(c, u, i) {
      if i < s.next { assert IndexAccounted(c, s, i); }
    }
    forall k | 0 <= k < |u.lanes| ensures LaneSound(c, u, k) {
      assert LaneSound(c, s, k);
    }
  }

  lemma StepKeepsInv<T>(c: Call<T>, s: State<T>, e: Event)
    requires Inv(c, s) && Enabled(s, e)
    ensures Inv(c, Next(c, s, e))
  {
    var t := Next(c, s, e);
    match e
    case Start(l) => ClaimKeepsInv(c, s, l);
    case Completes(l) => ClaimKeepsInv(c, s, l);
    case _ =>
      forall i | 0 <= i < t.next ensures IndexAccounted(c, t, i) {
        assert IndexAccounted(c, s, i);
      }
      forall k | 0 <= k < |t.lanes| ensures LaneSound(c, t, k) {
        assert LaneSound(c, s, k);
      }
  }

  lemma {:induction false} RunKeepsInv<T>(c: Call<T>, s: State<T>, events: seq<Event>, t: State<T>)
    requires Inv(c, s) && Run(c, s, events, t)
    ensures Inv(c, t)
    decreases |events|
  {
    if events != [] {
      StepKeepsInv(c, s, events[0]);
      RunKeepsInv(c, Next(c, s, events[0]), events[1..], t);
    }
  }

  lemma ReachableInv<T(!new)>(c: Call<T>, t: State<T>)
    requires Reachable(c, t)
    ensures Inv(c, t)
  {
    var events :| Run(c, Initial(c), events, t);
    RunKeepsInv(c, Initial(c), events, t);
  }

  /** The event makes its lane call operation(i). */
  ghost predicate Starts<T>(c: Call<T>, s: State<T>, e: Event, i: nat)
    requires Enabled(s, e)
  {
    (e.Start? || e.Completes?) && s.lanes[e.lane] != Awaiting(i) && Next(c, s, e).lanes[e.lane] == Awaiting(i)
  }

  /** How often operation(i) is called along a run. */
  ghost function Calls<T>(c: Call<T>, s: State<T>, events: seq<Event>, t: State<T>, i: nat): nat
    requires Run(c, s, events, t)
    decreases |events|
  {
    if events == [] then 0
    else (if Starts(c, s, events[0], i) then 1 else 0) + Calls(c, Next(c, s, events[0]), events[1..], t, i)
  }

  lemma {:induction false} CalledFrom<T>(c: Call<T>, s: State<T>, events: seq<Event>, t: State<T>, i: nat)
    requires Inv(c, s) && Run(c, s, events, t)
    ensures s.next <= t.next && Calls(c, s, events, t, i) == if s.next <= i < t.next then 1 else 0
    decreases |events|
  {
    if events != [] {
      var e := events[0];
      StepKeepsInv(c, s, e);
      CalledFrom(c, Next(c, s, e), events[1..], t, i);
      if e.Completes? { assert LaneSound(c, s, e.lane); }
    }
  }

  /** Under every interleaving, each index below the shared counter had its operation called exactly once,
      and no other index at all. */
  lemma CalledOnce<T(!new)>(c: Call<T>, events: seq<Event>, t: State<T>, i: nat)
    requires Run(c, Initial(c), events, t)
    ensures Calls(c, Initial(c), events, t, i) == if i < t.next then 1 else 0
    ensures t.next <= Max(0, c.count)
  {
    CalledFrom(c, Initial(c), events, t, i);
    RunKeepsInv(c, Initial(c), events, t);
  }

  /** A call that returned has called each of its operations exactly once if and only if there was nothing to do or
      a lane to do it. */
  lemma ReturnedCalledEach<T(!new)>(c: Call<T>, events: seq<Event>, t: State<T>)
    requires Run(c, Initial(c), events, t) && t.caller.Returned?
    ensures (forall i :: 0 <= i < c.count ==> Calls(c, Initial(c), events, t, i) == 1) <==> c.count <= 0 || c.concurrency >= 1
  {
    RunKeepsInv(c, Initial(c), events, t);
    if c.count > 0 && c.concurrency >= 1 {
      assert LaneSound(c, t, 0);
      forall i | 0 <= i < c.count ensures Calls(c, Initial(c), events, t, i) == 1 {
        CalledOnce(c, events, t, i);
      }
    } else if c.count > 0 {
      if t.next > 0 { ClaimHasLane(c, t, 0); }
      CalledOnce(c, events, t, 0);
      assert Calls(c, Initial(c), events, t, 0) == 0;
    }
  }

  /** No two lanes are ever inside the same operation, and at most min(count, concurrency) operations are
      in flight. */
  lemma InFlightBounded<T(!new)>(c: Call<T>, t: State<T>)
    requires Reachable(c, t)
    ensures forall l, m :: 0 <= l < m < |t.lanes| && t.lanes[l].Awaiting? && t.lanes[m].Awaiting? ==>
              t.lanes[l].index != t.lanes[m].index
    ensures var inFlight := set l | 0 <= l < |t.lanes| && t.lanes[l].Awaiting?;
            |inFlight| <= Max(0, Min(c.count, c.concurrency))
  {
    ReachableInv(c, t);
    forall l, m | 0 <= l < m < |t.lanes| && t.lanes[l].Awaiting? && t.lanes[m].Awaiting?
      ensures t.lanes[l].index != t.lanes[m].index
    {
      assert LaneSound(c, t, l) && LaneSound(c, t, m);
    }
    IndicesBelow(set l | 0 <= l < |t.lanes| && t.lanes[l].Awaiting?, |t.lanes|);
  }

  lemma {:induction false} IndicesBelow(a: set<int>, n: nat)
    requires forall x :: x in a ==> 0 <= x < n
    ensures |a| <= n
    decreases n
  {
    if n == 0 {
      assert forall x :: x !in a;
    } else {
      IndicesBelow(a - {n - 1}, n - 1);
    }
  }

  /** A stored result is the operation's own value for that index and is never written again. */
  lemma StoredResultsStay<T>(c: Call<T>, s: State<T>, e: Event, i: nat)
    requires Inv(c, s) && Enabled(s, e) && i < |s.results| && s.results[i].Some?
    ensures s.results[i] == Some(c.operation(i)) && Next(c, s, e).results[i] == s.results[i]
  {
    if i < s.next { assert IndexAccounted(c, s, i); }
    if e.Completes? { assert LaneSound(c, s, e.lane); }
  }

  lemma ClaimHasLane<T>(c: Call<T>, s: State<T>, i: nat)
    requires Inv(c, s) && i < s.next
    ensures s.claims[i] < |s.lanes|
  {
    assert IndexAccounted(c, s, i);
  }

  /** Normal completion. With a positive concurrency, or nothing to do, the returned list holds
      operation(i) at every i; otherwise - and only otherwise - the call returns with holes. */
  lemma CompleteExactly<T(!new)>(c: Call<T>, t: State<T>)
    requires Reachable(c, t) && t.caller.Returned?
    ensures |t.results| == Max(0, c.count)
    ensures (forall i :: 0 <= i < |t.results| ==> t.results[i] == Some(c.operation(i)))
            <==> c.count <= 0 || c.concurrency >= 1
  {
    ReachableInv(c, t);
    if c.count > 0 && c.concurrency >= 1 {
      assert LaneSound(c, t, 0);
      forall i | 0 <= i < |t.results| ensures t.results[i] == Some(c.operation(i)) {
        assert IndexAccounted(c, t, i);
      }
    } else if c.count > 0 {
      if t.next > 0 { ClaimHasLane(c, t, 0); }
      assert t.results[0].None?;
    }
  }

  /** The other half does happen: with work to do and no lane to do it, the call returns at once, all holes. */
  lemma ReturnsWithHoles<T(!new)>(c: Call<T>) returns (t: State<T>)
    requires c.count > 0 && c.concurrency <= 0
    ensures Reachable(c, t) && t.caller.Returned?
    ensures |t.results| == c.count && forall i :: 0 <= i < |t.results| ==> t.results[i].None?
  {
    t := Next(c, Initial(c), Finish);
    assert Run(c, t, [Finish][1..], t);
    assert Run(c, Initial(c), [Finish], t);
  }

  // ---------------------------------------------------------------- every run ends

  function LaneWeight(l: Lane): nat {
    match l case Fresh => 2 case Awaiting(_) => 1 case _ => 0
  }

  function LanesWeight(lanes: seq<Lane>): nat {
    if lanes == [] then 0 else LaneWeight(lanes[0]) + LanesWeight(lanes[1..])
  }

  lemma {:induction false} LanesWeightUpdate(lanes: seq<Lane>, l: nat, x: Lane)
    requires l < |lanes|
    ensures LanesWeight(lanes[l := x]) == LanesWeight(lanes) - LaneWeight(lanes[l]) + LaneWeight(x)
  {
    if l == 0 {
      assert lanes[l := x][1..] == lanes[1..];
    } else {
      LanesWeightUpdate(lanes[1..], l - 1, x);
      assert lanes[l := x][1..] == lanes[1..][l - 1 := x];
    }
  }

  function Measure<T>(c: Call<T>, s: State<T>): int {
    2 * (c.Size() - s.next) + LanesWeight(s.lanes)
    + (match s.caller case Gathering => 2 case Cleanup => 1 case _ => 0)
  }

  /** Every step brings the call nearer its end, so no schedule runs forever. */
  lemma StepDecreasesMeasure<T>(c: Call<T>, s: State<T>, e: Event)
    requires Inv(c, s) && Enabled(s, e)
    ensures 0 <= Measure(c, Next(c, s, e)) < Measure(c, s)
  {
    StepKeepsInv(c, s, e);
    match e
    case Start(l) => LanesWeightUpdate(s.lanes, l, if s.next < c.count then Awaiting(s.next) else Done);
    case Completes(l) => LanesWeightUpdate(s.lanes, l, if s.next < c.count then Awaiting(s.next) else Done);
    case Fails(l) => LanesWeightUpdate(s.lanes, l, Failed);
    case Cancels(l) => LanesWeightUpdate(s.lanes, l, Cancelled);
    case _ =>
  }

  /** The call only stops by returning or raising, and while no lane has failed it can go on
      without being aborted. */
  lemma NeverStuck<T>(c: Call<T>, s: State<T>) returns (e: Event)
    requires Inv(c, s) && !s.caller.Returned? && !s.caller.Raising?
    ensures Enabled(s, e)
    ensures (forall l :: 0 <= l < |s.lanes| ==> !s.lanes[l].Failed?) && s.caller.Gathering? ==>
              !e.Abort? && !e.Fails?
  {
    if l :| 0 <= l < |s.lanes| && !s.lanes[l].Ended() {
      assert LaneSound(c, s, l);
      e := if s.caller.Cleanup? then Cancels(l) else if s.lanes[l].Fresh? then Start(l) else Completes(l);
    } else if s.caller.Cleanup? || forall l :: 0 <= l < |s.lanes| ==> s.lanes[l].Done? {
      e := Finish;
    } else {
      e := Abort;
      var l :| 0 <= l < |s.lanes| && !s.lanes[l].Done?;
      assert LaneSound(c, s, l);
    }
  }

  /** While no operation fails and nobody aborts, the call goes on, and returns: from every state of the first gather
      without a failed lane there is a way to the end. */
  lemma {:induction false} CanReturn<T(!new)>(c: Call<T>, s: State<T>) returns (events: seq<Event>, t: State<T>)
    requires Inv(c, s) && s.caller.Gathering? && forall l :: 0 <= l < |s.lanes| ==> !s.lanes[l].Failed?
    ensures Run(c, s, events, t) && t.caller.Returned?
    ensures forall k :: 0 <= k < |events| ==> !events[k].Abort? && !events[k].Fails? && !events[k].Cancels?
    decreases Measure(c, s)
  {
    var e := NeverStuck(c, s);
    StepDecreasesMeasure(c, s, e);
    StepKeepsInv(c, s, e);
    var next := Next(c, s, e);
    if e.Finish? {
      events, t := [e], next;
      assert Run(c, next, events[1..], next);
    } else {
      var rest;
      rest, t := CanReturn(c, next);
      events := [e] + rest;
      assert events[1..] == rest;
    }
  }

  /** Every call with work and a lane to do it can end with the full list of results. */
  lemma ReturnsComplete<T(!new)>(c: Call<T>) returns (t: State<T>)
    requires c.count > 0 && c.concurrency >= 1
    ensures Reachable(c, t) && t.caller.Returned? && |t.results| == c.count
    ensures forall i :: 0 <= i < c.count ==> t.results[i] == Some(c.operation(i))
  {
    var events;
    events, t := CanReturn(c, Initial(c));
    CompleteExactly(c, t);
  }
}
