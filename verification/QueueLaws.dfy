/** What the commit observer's figures mean, for any sequence of committed events
    (scripts/benchmarks/scale_002_runtime.py, Observer.committed). */
module QueueLaws {
  import opened Outcomes
  import opened CommitObserver

  /** The observer after these committed events, from its reset state. */
  function After(xs: seq<Stamped>): View { Fold(EMPTY, xs) }

  lemma AfterNext(xs: seq<Stamped>)
    requires xs != []
    ensures After(xs) == Apply(After(xs[..|xs| - 1]), xs[|xs| - 1])
  {
  }

  // ---------------------------------------------------------------- the queue

  ghost predicate Waiting(xs: seq<Stamped>, job: JobId, i: int) {
    && 0 <= i < |xs| && xs[i].event.job == job && xs[i].event.kind.Created?
    && forall k :: i <= k < |xs| && xs[k].event.job == job ==> !xs[k].event.Dequeues()
  }

  /** A job is queued exactly when some creation of it was followed by neither a claim nor a terminal state. */
  lemma {:induction false} QueueExact(xs: seq<Stamped>, job: JobId)
    ensures job in After(xs).queued <==> exists i :: Waiting(xs, job, i)
  {
    if xs != [] {
      var front, last := xs[..|xs| - 1], xs[|xs| - 1].event;
      QueueExact(front, job);
      forall i | Waiting(front, job, i) && !(last.job == job && last.Dequeues()) ensures Waiting(xs, job, i) {
        assert forall k :: 0 <= k < |front| ==> xs[k] == front[k];
      }
      forall i | Waiting(xs, job, i) && i < |front| ensures Waiting(front, job, i) {
        assert forall k :: 0 <= k < |front| ==> xs[k] == front[k];
      }
      if last.job == job && last.kind.Created? && !last.Dequeues() {
        assert Waiting(xs, job, |xs| - 1);
      }
    }
  }

  // ---------------------------------------------------------------- peak queue length

  /** No job is created in a terminal state. */
  ghost predicate CreatedLive(xs: seq<Stamped>) {
    forall i :: 0 <= i < |xs| && xs[i].event.kind.Created? ==> !xs[i].event.state.Terminal()
  }

  /** The queue at its longest while the last event was handled: a creation enters it before anything leaves. */
  ghost function Momentary(xs: seq<Stamped>): set<JobId> {
    if xs != [] && xs[|xs| - 1].event.kind.Created? then After(xs[..|xs| - 1]).queued + {xs[|xs| - 1].event.job}
    else After(xs).queued
  }

  lemma PeakNext(xs: seq<Stamped>)
    requires xs != []
    ensures var before, after, e := After(xs[..|xs| - 1]), After(xs), xs[|xs| - 1].event;
            && after.queued <= Momentary(xs)
            && (!e.kind.Created? ==> after.queued <= before.queued && after.peakQueue == before.peakQueue)
            && (e.kind.Created? ==> after.peakQueue == Max(before.peakQueue, |Momentary(xs)|))
            && (e.kind.Created? && !e.state.Terminal() ==> after.queued == Momentary(xs))
  {
    AfterNext(xs);
  }

  /** The recorded peak is the largest queue length over the whole history ... */
  lemma {:induction false} PeakBounds(xs: seq<Stamped>, n: nat)
    requires n <= |xs|
    ensures |After(xs[..n]).queued| <= |Momentary(xs[..n])| <= After(xs).peakQueue
  {
    if xs == [] {
      assert xs[..0] == [];
    } else {
      var front := xs[..|xs| - 1];
      PeakNext(xs);
      Smaller(After(xs).queued, Momentary(xs));
      if n < |xs| {
        PeakBounds(front, n);
        assert front[..n] == xs[..n];
      } else {
        assert xs[..n] == xs;
        PeakBounds(front, |front|);
        assert front[..|front|] == front;
        if !xs[|xs| - 1].event.kind.Created? { Smaller(After(xs).queued, After(front).queued); }
      }
    }
  }

  /** ... and it was reached: at some moment always, and between two events when no job is created in a
      terminal state. */
  lemma {:induction false} PeakReached(xs: seq<Stamped>) returns (n: nat)
    ensures n <= |xs| && |Momentary(xs[..n])| == After(xs).peakQueue
    ensures CreatedLive(xs) ==> |After(xs[..n]).queued| == After(xs).peakQueue
  {
    n := 0;
    if xs != [] {
      var front := xs[..|xs| - 1];
      n := PeakReached(front);
      PeakNext(xs);
      assert front[..n] == xs[..n];
      if After(xs).peakQueue != After(front).peakQueue {
        n := |xs|;
        assert xs[..n] == xs;
      }
    }
  }

  lemma Smaller<T>(a: set<T>, b: set<T>)
    requires a <= b
    ensures |a| <= |b|
  {
    assert b == a + (b - a);
  }

  // ---------------------------------------------------------------- duplicate counters

  function Claims(xs: seq<Stamped>): nat {
    if xs == [] then 0 else Claims(xs[..|xs| - 1]) + if xs[|xs| - 1].event.Claims() then 1 else 0
  }

  function Terminals(xs: seq<Stamped>): nat {
    if xs == [] then 0 else Terminals(xs[..|xs| - 1]) + if xs[|xs| - 1].event.state.Terminal() then 1 else 0
  }

  ghost function ClaimedJobs(xs: seq<Stamped>): set<JobId> {
    set i | 0 <= i < |xs| && xs[i].event.Claims() :: xs[i].event.job
  }

  ghost function EndedJobs(xs: seq<Stamped>): set<JobId> {
    set i | 0 <= i < |xs| && xs[i].event.state.Terminal() :: xs[i].event.job
  }

  /** A job's row carries a claim or a terminal stamp exactly when such an event was committed for it. */
  lemma {:induction false} RowExact(xs: seq<Stamped>, job: JobId)
    ensures RowOf(After(xs), job).claimed.Some? <==> job in ClaimedJobs(xs)
    ensures RowOf(After(xs), job).terminal.Some? <==> job in EndedJobs(xs)
  {
    if xs != [] {
      var front := xs[..|xs| - 1];
      RowExact(front, job);
      AfterNext(xs);
      JobsNext(xs);
    }
  }

  lemma JobsNext(xs: seq<Stamped>)
    requires xs != []
    ensures var front, last := xs[..|xs| - 1], xs[|xs| - 1].event;
            && ClaimedJobs(xs) == ClaimedJobs(front) + (if last.Claims() then {last.job} else {})
            && EndedJobs(xs) == EndedJobs(front) + (if last.state.Terminal() then {last.job} else {})
  {
    var front, last := xs[..|xs| - 1], xs[|xs| - 1].event;
    assert forall k :: 0 <= k < |front| ==> xs[k] == front[k];
    forall j | j in ClaimedJobs(front) ensures j in ClaimedJobs(xs) {
      var i :| 0 <= i < |front| && front[i].event.Claims() && front[i].event.job == j;
      assert xs[i].event.job == j;
    }
    forall j | j in EndedJobs(front) ensures j in EndedJobs(xs) {
      var i :| 0 <= i < |front| && front[i].event.state.Terminal() && front[i].event.job == j;
      assert xs[i].event.job == j;
    }
  }

  lemma CountersNext(xs: seq<Stamped>)
    requires xs != []
    ensures var front, e := xs[..|xs| - 1], xs[|xs| - 1].event;
            && After(xs).duplicateClaim == After(front).duplicateClaim
                 + (if e.Claims() && e.job in ClaimedJobs(front) then 1 else 0)
            && After(xs).duplicateTerminal == After(front).duplicateTerminal
                 + (if e.state.Terminal() && e.job in EndedJobs(front) then 1 else 0)
  {
    AfterNext(xs);
    RowExact(xs[..|xs| - 1], xs[|xs| - 1].event.job);
  }

  /** The duplicate-claim counter is exactly the surplus of claims over claimed jobs ... */
  lemma {:induction false} DuplicateClaimsExact(xs: seq<Stamped>)
    ensures After(xs).duplicateClaim == Claims(xs) - |ClaimedJobs(xs)|
  {
    if xs != [] {
      var front, e := xs[..|xs| - 1], xs[|xs| - 1].event;
      DuplicateClaimsExact(front);
      CountersNext(xs);
      JobsNext(xs);
      OneMore(ClaimedJobs(front), e.job);
    } else {
      assert ClaimedJobs(xs) == {};
    }
  }

  /** ... and the duplicate-terminal counter that of terminal events over ended jobs. */
  lemma {:induction false} DuplicateTerminalsExact(xs: seq<Stamped>)
    ensures After(xs).duplicateTerminal == Terminals(xs) - |EndedJobs(xs)|
  {
    if xs != [] {
      var front, e := xs[..|xs| - 1], xs[|xs| - 1].event;
      DuplicateTerminalsExact(front);
      CountersNext(xs);
      JobsNext(xs);
      OneMore(EndedJobs(front), e.job);
    } else {
      assert EndedJobs(xs) == {};
    }
  }

  lemma OneMore<T>(a: set<T>, x: T)
    ensures |a + {x}| == |a| + (if x in a then 0 else 1)
  {
    if x in a { assert a + {x} == a; }
  }

  ghost predicate ClaimedOnce(xs: seq<Stamped>) {
    forall i, j :: 0 <= i < j < |xs| && xs[i].event.Claims() && xs[j].event.Claims() ==> xs[i].event.job != xs[j].event.job
  }

  ghost predicate EndedOnce(xs: seq<Stamped>) {
    forall i, j :: 0 <= i < j < |xs| && xs[i].event.state.Terminal() && xs[j].event.state.Terminal() ==>
      xs[i].event.job != xs[j].event.job
  }

  /** A counter stays zero exactly when no job was claimed, or ended, twice. */
  lemma {:induction false} NoDuplicatesIff(xs: seq<Stamped>)
    ensures After(xs).duplicateClaim == 0 <==> ClaimedOnce(xs)
    ensures After(xs).duplicateTerminal == 0 <==> EndedOnce(xs)
  {
    if xs != [] {
      var front, last := xs[..|xs| - 1], xs[|xs| - 1].event;
      NoDuplicatesIff(front);
      CountersNext(xs);
      assert forall k :: 0 <= k < |front| ==> xs[k] == front[k];
      if ClaimedOnce(front) && last.Claims() && last.job in ClaimedJobs(front) {
        var i :| 0 <= i < |front| && front[i].event.Claims() && front[i].event.job == last.job;
        assert xs[i].event.job == xs[|xs| - 1].event.job;
      }
      if EndedOnce(front) && last.state.Terminal() && last.job in EndedJobs(front) {
        var i :| 0 <= i < |front| && front[i].event.state.Terminal() && front[i].event.job == last.job;
        assert xs[i].event.job == xs[|xs| - 1].event.job;
      }
      assert ClaimedOnce(xs) ==> ClaimedOnce(front);
      assert EndedOnce(xs) ==> EndedOnce(front);
    }
  }

  // ---------------------------------------------------------------- stamps

  /** The stamp is that of the last of these events, and there is none exactly when there was no such event. */
  ghost predicate IsLast(stamp: Option<Stamp>, xs: seq<Stamped>, which: Event -> bool) {
    && (stamp.None? <==> forall i :: 0 <= i < |xs| ==> !which(xs[i].event))
    && forall i :: LastAt(xs, which, i) ==> stamp == Some(xs[i].stamp)
  }

  ghost predicate LastAt(xs: seq<Stamped>, which: Event -> bool, i: int) {
    0 <= i < |xs| && which(xs[i].event) && forall k :: i < k < |xs| ==> !which(xs[k].event)
  }

  lemma IsLastNext(before: Option<Stamp>, xs: seq<Stamped>, which: Event -> bool)
    requires xs != [] && IsLast(before, xs[..|xs| - 1], which)
    ensures IsLast(if which(xs[|xs| - 1].event) then Some(xs[|xs| - 1].stamp) else before, xs, which)
  {
    var n, front := |xs| - 1, xs[..|xs| - 1];
    if which(xs[n].event) {
      assert forall i :: LastAt(xs, which, i) ==> i == n;
    } else {
      forall i | LastAt(xs, which, i) ensures before == Some(xs[i].stamp) {
        assert forall k :: 0 <= k < n ==> xs[k] == front[k];
        assert LastAt(front, which, i);
      }
      assert forall i :: 0 <= i < n ==> xs[i] == front[i];
    }
  }

  function SeenAt(v: View, job: JobId, sequence: int): Option<Stamp> {
    if sequence in SeenOf(v, job) then Some(SeenOf(v, job)[sequence]) else None
  }

  /** What the last event leaves in a job's row and in its sequences. */
  lemma RowNext(xs: seq<Stamped>, job: JobId, sequence: int)
    requires xs != []
    ensures var before, after, e, stamp := After(xs[..|xs| - 1]), After(xs), xs[|xs| - 1].event, xs[|xs| - 1].stamp;
            && RowOf(after, job).created == (if e.job == job && e.kind == Created then Some(stamp) else RowOf(before, job).created)
            && RowOf(after, job).claimed == (if e.job == job && e.Claims() then Some(stamp) else RowOf(before, job).claimed)
            && RowOf(after, job).terminal == (if e.job == job && e.state.Terminal() then Some(stamp) else RowOf(before, job).terminal)
            && SeenAt(after, job, sequence) == if e.job == job && e.sequence == sequence then Some(stamp) else SeenAt(before, job, sequence)
  {
    AfterNext(xs);
  }

  /** A job's stamps are those of its last creation, its last claim and its last terminal event, and the stamp kept
      for a sequence number is that of the last event with it; each is absent exactly when there was no such event. */
  lemma {:induction false} StampsExact(xs: seq<Stamped>, job: JobId, sequence: int)
    ensures IsLast(RowOf(After(xs), job).created, xs, (e: Event) => e.job == job && e.kind == Created)
    ensures IsLast(RowOf(After(xs), job).claimed, xs, (e: Event) => e.job == job && e.kind == StateChanged && e.state == Running)
    ensures IsLast(RowOf(After(xs), job).terminal, xs,
                   (e: Event) => e.job == job && e.state in {Succeeded, Failed, JobState.Cancelled, Interrupted})
    ensures IsLast(SeenAt(After(xs), job, sequence), xs, (e: Event) => e.job == job && e.sequence == sequence)
  {
    var created := (e: Event) => e.job == job && e.kind == Created;
    var claimed := (e: Event) => e.job == job && e.kind == StateChanged && e.state == Running;
    var ended := (e: Event) => e.job == job && e.state in {Succeeded, Failed, JobState.Cancelled, Interrupted};
    var numbered := (e: Event) => e.job == job && e.sequence == sequence;
    if xs != [] {
      var front := xs[..|xs| - 1];
      StampsExact(front, job, sequence);
      RowNext(xs, job, sequence);
      hide After, IsLast, Apply;
      IsLastNext(RowOf(After(front), job).created, xs, created);
      IsLastNext(RowOf(After(front), job).claimed, xs, claimed);
      IsLastNext(RowOf(After(front), job).terminal, xs, ended);
      IsLastNext(SeenAt(After(front), job, sequence), xs, numbered);
    }
  }

  /** The observer knows a job exactly when some event was committed for it. */
  lemma {:induction false} JobsExact(xs: seq<Stamped>, job: JobId)
    ensures job in After(xs).jobs <==> exists i :: 0 <= i < |xs| && xs[i].event.job == job
    ensures job in After(xs).events <==> job in After(xs).jobs
  {
    if xs != [] {
      var front := xs[..|xs| - 1];
      JobsExact(front, job);
      AfterNext(xs);
      assert forall i :: 0 <= i < |front| ==> xs[i] == front[i];
      if i :| 0 <= i < |front| && front[i].event.job == job { assert xs[i].event.job == job; }
      assert xs[|front|] == xs[|xs| - 1];
    }
  }

  // ---------------------------------------------------------------- recorded sequences

  /** The sequences recorded for a job are exactly those of its committed events. */
  lemma {:induction false} SequencesExact(xs: seq<Stamped>, job: JobId, sequence: int)
    ensures sequence in SeenOf(After(xs), job) <==>
            exists i :: 0 <= i < |xs| && xs[i].event.job == job && xs[i].event.sequence == sequence
  {
    if xs != [] {
      var front, last := xs[..|xs| - 1], xs[|xs| - 1].event;
      SequencesExact(front, job, sequence);
      AfterNext(xs);
      if i :| 0 <= i < |front| && front[i].event.job == job && front[i].event.sequence == sequence {
        assert xs[i].event.job == job;
      }
      if i :| 0 <= i < |xs| && xs[i].event.job == job && xs[i].event.sequence == sequence {
        assert i == |front| || front[i] == xs[i];
      }
      assert xs[|front|].event == last;
    }
  }

  // ---------------------------------------------------------------- the ordinary life of a job

  ghost function CreatedJobs(xs: seq<Stamped>): set<JobId> {
    set i | 0 <= i < |xs| && xs[i].event.kind.Created? :: xs[i].event.job
  }

  /** A job is created once, in a live state, before any other of its events, claimed at most once
      and ended at most once. */
  ghost predicate WellFormed(xs: seq<Stamped>) {
    && CreatedLive(xs) && ClaimedOnce(xs) && EndedOnce(xs)
    && forall i, j :: 0 <= i < j < |xs| && xs[i].event.job == xs[j].event.job ==> !xs[j].event.kind.Created?
  }

  /** For ordinary lives, the queue is exactly the created jobs that are neither claimed nor ended,
      and both duplicate counters are zero. */
  lemma OrdinaryQueue(xs: seq<Stamped>)
    requires WellFormed(xs)
    ensures After(xs).queued == CreatedJobs(xs) - ClaimedJobs(xs) - EndedJobs(xs)
    ensures After(xs).duplicateClaim == 0 && After(xs).duplicateTerminal == 0
  {
    NoDuplicatesIff(xs);
    forall job ensures job in After(xs).queued <==> job in CreatedJobs(xs) - ClaimedJobs(xs) - EndedJobs(xs) {
      QueueExact(xs, job);
      if job in CreatedJobs(xs) - ClaimedJobs(xs) - EndedJobs(xs) {
        var i :| 0 <= i < |xs| && xs[i].event.kind.Created? && xs[i].event.job == job;
        assert Waiting(xs, job, i);
      }
      if i :| Waiting(xs, job, i) {
        forall k | 0 <= k < |xs| && xs[k].event.job == job ensures !xs[k].event.Dequeues() {
          assert k < i ==> xs[k].event.job == xs[i].event.job;
        }
      }
    }
  }
}
