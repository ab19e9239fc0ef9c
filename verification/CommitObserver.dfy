/** The commit observer of the benchmark runtime (scripts/benchmarks/scale_002_runtime.py, Observer and
    ObservedConnection): events are buffered per connection and reach the observer only when their
    transaction commits. */
module CommitObserver {
  import opened Outcomes

  type JobId = string
  type Stamp = int

  datatype Kind = Created | StateChanged | OtherKind
  datatype JobState = Running | Succeeded | Failed | Cancelled | Interrupted | OtherState {
    predicate Terminal() { Succeeded? || Failed? || Cancelled? || Interrupted? }
  }

  datatype Event = Event(job: JobId, sequence: int, kind: Kind, state: JobState) {
    predicate Claims() { kind.StateChanged? && state.Running? }
    /** The event takes its job out of the queue. */
    predicate Dequeues() { Claims() || state.Terminal() }
  }

  /** An event together with the moment its transaction became durable. */
  datatype Stamped = Stamped(event: Event, stamp: Stamp)

  datatype Row = Row(created: Option<Stamp>, claimed: Option<Stamp>, terminal: Option<Stamp>)

  datatype View = View(jobs: map<JobId, Row>, events: map<JobId, map<int, Stamp>>, queued: set<JobId>,
                       peakQueue: nat, duplicateClaim: nat, duplicateTerminal: nat)

  const EMPTY := View(map[], map[], {}, 0, 0, 0)

  // ---------------------------------------------------------------- what one committed event does

  function RowOf(v: View, job: JobId): Row {
    if job in v.jobs then v.jobs[job] else Row(None, None, None)
  }

  function SeenOf(v: View, job: JobId): map<int, Stamp> {
    if job in v.events then v.events[job] else map[]
  }

  function Apply(v: View, x: Stamped): View {
    var e, stamp := x.event, x.stamp;
    var row := RowOf(v, e.job);
    var queued1 := if e.kind.Created? then v.queued + {e.job} else v.queued;
    View(
      v.jobs[e.job := Row(if e.kind.Created? then Some(stamp) else row.created,
                          if e.Claims() then Some(stamp) else row.claimed,
                          if e.state.Terminal() then Some(stamp) else row.terminal)],
      v.events[e.job := SeenOf(v, e.job)[e.sequence := stamp]],
      if e.Dequeues() then queued1 - {e.job} else queued1,
      if e.kind.Created? then Max(v.peakQueue, |queued1|) else v.peakQueue,
      v.duplicateClaim + (if e.Claims() && row.claimed.Some? then 1 else 0),
      v.duplicateTerminal + (if e.state.Terminal() && row.terminal.Some? then 1 else 0))
  }

  function Fold(v: View, xs: seq<Stamped>): View {
    if xs == [] then v else Apply(Fold(v, xs[..|xs| - 1]), xs[|xs| - 1])
  }

  lemma {:induction false} FoldConcat(v: View, xs: seq<Stamped>, ys: seq<Stamped>)
    ensures Fold(v, xs + ys) == Fold(Fold(v, xs), ys)
  {
    hide Apply;
    if ys == [] {
      assert xs + ys == xs;
    } else {
      FoldConcat(v, xs, ys[..|ys| - 1]);
      assert (xs + ys)[..|xs + ys| - 1] == xs + ys[..|ys| - 1];
    }
  }

  function AllStamped(es: seq<Event>, stamp: Stamp): (r: seq<Stamped>)
    ensures |r| == |es| && forall i :: 0 <= i < |es| ==> r[i] == Stamped(es[i], stamp)
  {
    seq(|es|, i requires 0 <= i < |es| => Stamped(es[i], stamp))
  }

  /** The shared observer. The error counters not derived from committed events are kept beside it. */
  class Observer {
    var jobs: map<JobId, Row>
    var events: map<JobId, map<int, Stamp>>
    var queued: set<JobId>
    var peakQueue: nat
    var duplicateClaim: nat
    var duplicateTerminal: nat
    var sqliteBusy: nat
    var sqliteError: nat
    var mutationAfterTerminal: nat

    function Snapshot(): View reads this {
      View(jobs, events, queued, peakQueue, duplicateClaim, duplicateTerminal)
    }

    constructor ()
      ensures Snapshot() == EMPTY && sqliteBusy == sqliteError == mutationAfterTerminal == 0
    {
      jobs, events, queued := map[], map[], {};
      peakQueue, duplicateClaim, duplicateTerminal := 0, 0, 0;
      sqliteBusy, sqliteError, mutationAfterTerminal := 0, 0, 0;
    }

    method Committed(batch: seq<Event>, stamp: Stamp)
      modifies this`jobs, this`events, this`queued, this`peakQueue, this`duplicateClaim, this`duplicateTerminal
      ensures Snapshot() == Fold(old(Snapshot()), AllStamped(batch, stamp))
    {
      ghost var start, all := Snapshot(), AllStamped(batch, stamp);
      for i := 0 to |batch|
        invariant Snapshot() == Fold(start, all[..i])
      {
        assert all[..i + 1][..i] == all[..i] && all[i] == Stamped(batch[i], stamp);
        CommittedOne(batch[i], stamp);
      }
      assert all[..|batch|] == all;
    }

    /** The loop body of the commit callback. */
    method CommittedOne(e: Event, stamp: Stamp)
      modifies this`jobs, this`events, this`queued, this`peakQueue, this`duplicateClaim, this`duplicateTerminal
      ensures Snapshot() == Apply(old(Snapshot()), Stamped(e, stamp))
    {
      var row := if e.job in jobs then jobs[e.job] else Row(None, None, None);
      events := events[e.job := (if e.job in events then events[e.job] else map[])[e.sequence := stamp]];
      if e.kind.Created? {
        row := row.(created := Some(stamp));
        queued := queued + {e.job};
        peakQueue := Max(peakQueue, |queued|);
      }
      if e.kind.StateChanged? && e.state.Running? {
        if row.claimed.Some? { duplicateClaim := duplicateClaim + 1; }
        row := row.(claimed := Some(stamp));
        queued := queued - {e.job};
      }
      if e.state.Terminal() {
        if row.terminal.Some? { duplicateTerminal := duplicateTerminal + 1; }
        row := row.(terminal := Some(stamp));
        queued := queued - {e.job};
      }
      jobs := jobs[e.job := row];
    }
  }

  // ---------------------------------------------------------------- connections

  /** What a statement is to the observer: an event row, an update of job rows, or anything else. */
  datatype Statement = InsertEvent(event: Event) | UpdateJobs(values: seq<JobId>, rowCount: nat) | OtherStatement

  datatype Reply = Succeeds | Busy | Error

  class ObservedConnection {
    var pending: seq<Event>

    constructor ()
      ensures pending == []
    {
      pending := [];
    }

    /** A failed statement buffers nothing and counts one error; a successful event row is buffered. */
    method Execute(observer: Observer, s: Statement, reply: Reply) returns (raised: bool)
      modifies this, observer`sqliteBusy, observer`sqliteError, observer`mutationAfterTerminal
      ensures raised <==> !reply.Succeeds?
      ensures pending == old(pending) + (if reply.Succeeds? && s.InsertEvent? then [s.event] else [])
      ensures observer.sqliteBusy == old(observer.sqliteBusy) + (if reply.Busy? then 1 else 0)
      ensures observer.sqliteError == old(observer.sqliteError) + (if reply.Error? then 1 else 0)
      ensures observer.mutationAfterTerminal == old(observer.mutationAfterTerminal)
                + (if reply.Succeeds? && s.UpdateJobs? && s.rowCount > 0
                   then TerminalCount(observer.jobs, s.values) else 0)
    {
      raised := !reply.Succeeds?;
      match reply
      case Busy => observer.sqliteBusy := observer.sqliteBusy + 1;
      case Error => observer.sqliteError := observer.sqliteError + 1;
      case Succeeds =>
        if s.InsertEvent? {
          pending := pending + [s.event];
        }
        if s.UpdateJobs? && s.rowCount > 0 {
          for i := 0 to |s.values|
            modifies observer`mutationAfterTerminal
            invariant observer.mutationAfterTerminal
                      == old(observer.mutationAfterTerminal) + TerminalCount(observer.jobs, s.values[..i])
          {
            assert s.values[..i + 1][..i] == s.values[..i];
            if s.values[i] in observer.jobs && observer.jobs[s.values[i]].terminal.Some? {
              observer.mutationAfterTerminal := observer.mutationAfterTerminal + 1;
            }
          }
          assert s.values[..|s.values|] == s.values;
        }
    }

    /** A commit that fails leaves the buffer in place; one that succeeds hands it over and empties it. */
    method Commit(observer: Observer, stamp: Stamp, succeeds: bool)
      modifies this, observer`jobs, observer`events, observer`queued, observer`peakQueue,
               observer`duplicateClaim, observer`duplicateTerminal
      ensures pending == if succeeds then [] else old(pending)
      ensures observer.Snapshot() == Fold(old(observer.Snapshot()),
                                          if succeeds then AllStamped(old(pending), stamp) else [])
    {
      if succeeds {
        observer.Committed(pending, stamp);
        pending := [];
      }
    }

    method Rollback(succeeds: bool)
      modifies this
      ensures pending == if succeeds then [] else old(pending)
    {
      if succeeds {
        pending := [];
      }
    }
  }

  /** How many of the statement's values name a job that has ended. */
  function TerminalCount(jobs: map<JobId, Row>, values: seq<JobId>): (n: nat)
    ensures n == |set i | 0 <= i < |values| && values[i] in jobs && jobs[values[i]].terminal != None|
  {
    assert values != [] ==> var ends := set i | 0 <= i < |values| && values[i] in jobs && jobs[values[i]].terminal != None;
                            var front := values[..|values| - 1];
                            ends - {|values| - 1} == set i | 0 <= i < |front| && front[i] in jobs && jobs[front[i]].terminal != None;
    if values == [] then 0
    else TerminalCount(jobs, values[..|values| - 1])
         + if values[|values| - 1] in jobs && jobs[values[|values| - 1]].terminal.Some? then 1 else 0
  }

  // ---------------------------------------------------------------- histories over several connections

  /** One call on one connection; calls of different connections interleave freely. */
  datatype Action =
    | Execute(conn: nat, statement: Statement, reply: Reply)
    | Commit(conn: nat, stamp: Stamp, succeeds: bool)
    | Rollback(conn: nat, succeeds: bool)
  {
    predicate Buffers(c: nat) { Execute? && conn == c && reply.Succeeds? && statement.InsertEvent? }
    predicate Ends(c: nat) { ((Commit? && succeeds) || (Rollback? && succeeds)) && conn == c }
  }

  /** The event buffered at `i` became durable at `b`: `b` is the first call after `i` that ended the
      connection's transaction, and it was a commit. */
  ghost predicate DurableAt(h: seq<Action>, i: nat, b: nat) {
    && i < b < |h| && h[i].Buffers(h[i].conn)
    && h[b].Commit? && h[b].Ends(h[i].conn)
    && (forall k :: i < k < b ==> !h[k].Ends(h[i].conn))
  }

  datatype Durable = Durable(inserted: nat, committed: nat)

  /** The calls of connection `c` whose events are buffered and not yet ended. */
  function Open(h: seq<Action>, c: nat): (r: seq<nat>)
    ensures forall i :: 0 <= i < |r| ==> r[i] < |h|
  {
    if h == [] then []
    else
      var rest, last := Open(h[..|h| - 1], c), h[|h| - 1];
      if last.Ends(c) then [] else if last.Buffers(c) then rest + [|h| - 1] else rest
  }

  /** The durable events in commit order. */
  function Stream(h: seq<Action>): (r: seq<Durable>)
    ensures forall i :: 0 <= i < |r| ==> r[i].inserted < r[i].committed < |h|
  {
    if h == [] then []
    else Stream(h[..|h| - 1]) + Handed(h[..|h| - 1], h[|h| - 1])
  }

  /** What one more call makes durable: everything its connection had open, if it is a commit. */
  function Handed(front: seq<Action>, last: Action): (r: seq<Durable>)
    ensures forall i :: 0 <= i < |r| ==> r[i].inserted < r[i].committed == |front|
  {
    if last.Commit? && last.succeeds then
      var open := Open(front, last.conn);
      seq(|open|, i requires 0 <= i < |open| => Durable(open[i], |front|))
    else []
  }

  lemma {:induction false} OpenExact(h: seq<Action>, c: nat)
    ensures forall i :: i in Open(h, c) <==>
              0 <= i < |h| && h[i].Buffers(c) && forall k :: i < k < |h| ==> !h[k].Ends(c)
    ensures forall x, y :: 0 <= x < y < |Open(h, c)| ==> Open(h, c)[x] < Open(h, c)[y]
  {
    if h != [] {
      var front := h[..|h| - 1];
      OpenExact(front, c);
      forall i ensures i in Open(h, c) <==>
                         0 <= i < |h| && h[i].Buffers(c) && forall k :: i < k < |h| ==> !h[k].Ends(c)
      {
        if 0 <= i < |front| {
          assert h[i] == front[i];
          assert (forall k :: i < k < |h| ==> !h[k].Ends(c)) <==>
                 (forall k :: i < k < |front| ==> !front[k].Ends(c)) && !h[|h| - 1].Ends(c) by {
            assert forall k :: 0 <= k < |front| ==> front[k] == h[k];
          }
        }
      }
    }
  }

  predicate Earlier(x: Durable, y: Durable) {
    x.committed < y.committed || (x.committed == y.committed && x.inserted < y.inserted)
  }

  /** The stream is exactly the durable events, each once, by commit and then by insertion: an event
      of a rolled-back or unfinished transaction, or of a failed statement, is not in it. */
  lemma {:induction false} StreamExact(h: seq<Action>)
    ensures forall x :: x in Stream(h) <==> DurableAt(h, x.inserted, x.committed)
    ensures forall i, j :: 0 <= i < j < |Stream(h)| ==> Earlier(Stream(h)[i], Stream(h)[j])
  {
    if h != [] {
      var front := h[..|h| - 1];
      StreamExact(front);
      OpenExact(front, h[|h| - 1].conn);
      forall x ensures x in Stream(h) <==> DurableAt(h, x.inserted, x.committed) {
        StreamMembers(h, x);
        DurableNext(h, x);
      }
    }
  }

  lemma DurableNext(h: seq<Action>, x: Durable)
    requires h != []
    ensures var front, last := h[..|h| - 1], h[|h| - 1];
            DurableAt(h, x.inserted, x.committed) <==>
              || DurableAt(front, x.inserted, x.committed)
              || (last.Commit? && last.succeeds && x.committed == |front| && x.inserted in Open(front, last.conn))
  {
    var front, b, last := h[..|h| - 1], |h| - 1, h[|h| - 1];
    OpenExact(front, last.conn);
    assert forall k :: 0 <= k < b ==> front[k] == h[k];
    assert x.committed == b ==> !DurableAt(front, x.inserted, x.committed);
  }

  lemma StreamMembers(h: seq<Action>, x: Durable)
    requires h != []
    ensures var front, last := h[..|h| - 1], h[|h| - 1];
            x in Stream(h) <==>
              x in Stream(front)
              || (last.Commit? && last.succeeds && x.committed == |h| - 1 && x.inserted in Open(front, last.conn))
  {
    var front, b, last := h[..|h| - 1], |h| - 1, h[|h| - 1];
    if last.Commit? && last.succeeds && x.committed == b && x.inserted in Open(front, last.conn) {
      var i :| 0 <= i < |Open(front, last.conn)| && Open(front, last.conn)[i] == x.inserted;
      assert Handed(front, last)[i] == x;
    }
  }

  /** The event buffered by call `i`, and the stamp of commit `b`. */
  function EventAt(h: seq<Action>, i: nat): Event {
    if i < |h| && h[i].Buffers(h[i].conn) then h[i].statement.event else Event("", 0, OtherKind, OtherState)
  }

  function StampAt(h: seq<Action>, b: nat): Stamp {
    if b < |h| && h[b].Commit? then h[b].stamp else 0
  }

  /** The events of a history, as the observer should see them. */
  function Observed(h: seq<Action>): (r: seq<Stamped>) {
    var s := Stream(h);
    seq(|s|, i requires 0 <= i < |s| => Stamped(EventAt(h, s[i].inserted), StampAt(h, s[i].committed)))
  }

  function OpenEvents(h: seq<Action>, c: nat): (r: seq<Event>) {
    var o := Open(h, c);
    seq(|o|, i requires 0 <= i < |o| => EventAt(h, o[i]))
  }

  lemma ObservedNext(front: seq<Action>, last: Action)
    ensures Observed(front + [last]) == Observed(front)
              + (if last.Commit? && last.succeeds then AllStamped(OpenEvents(front, last.conn), last.stamp) else [])
  {
    var h := front + [last];
    assert h[..|front|] == front;
    assert forall i :: 0 <= i < |front| ==> EventAt(h, i) == EventAt(front, i) && StampAt(h, i) == StampAt(front, i);
  }

  lemma OpenEventsNext(front: seq<Action>, last: Action, c: nat)
    ensures OpenEvents(front + [last], c) ==
              if last.Ends(c) then [] else OpenEvents(front, c) + (if last.Buffers(c) then [last.statement.event] else [])
  {
    var h := front + [last];
    assert h[..|front|] == front;
    assert forall i :: 0 <= i < |front| ==> EventAt(h, i) == EventAt(front, i);
  }

  method Perform(observer: Observer, conns: seq<ObservedConnection>, a: Action)
    requires forall i, j :: 0 <= i < j < |conns| ==> conns[i] != conns[j]
    requires a.conn < |conns|
    modifies observer, conns[a.conn]
    ensures conns[a.conn].pending ==
              if a.Ends(a.conn) then []
              else old(conns[a.conn].pending) + (if a.Buffers(a.conn) then [a.statement.event] else [])
    ensures observer.Snapshot() == Fold(old(observer.Snapshot()),
              if a.Commit? && a.succeeds then AllStamped(old(conns[a.conn].pending), a.stamp) else [])
  {
    var conn := conns[a.conn];
    match a
    case Execute(_, statement, reply) => var _ := conn.Execute(observer, statement, reply);
    case Commit(_, stamp, succeeds) => conn.Commit(observer, stamp, succeeds);
    case Rollback(_, succeeds) => conn.Rollback(succeeds);
  }

  /** For every interleaving of connections, transactions, failed statements, failed commits and
      rollbacks, the observer ends as the fold of the durable events only, in commit order. */
  method Replay(observer: Observer, conns: seq<ObservedConnection>, h: seq<Action>)
    requires forall i, j :: 0 <= i < j < |conns| ==> conns[i] != conns[j]
    requires forall i :: 0 <= i < |conns| ==> conns[i].pending == []
    requires forall k :: 0 <= k < |h| ==> h[k].conn < |conns|
    modifies observer, conns
    ensures observer.Snapshot() == Fold(old(observer.Snapshot()), Observed(h))
    ensures forall c :: 0 <= c < |conns| ==> conns[c].pending == OpenEvents(h, c)
  {
    hide Fold, Observed, OpenEvents;
    ghost var start := observer.Snapshot();
    NothingYet(start, h);
    for k := 0 to |h|
      invariant Follows(observer.Snapshot(), start, h[..k]) && Buffered(conns, h[..k])
    {
      Next(observer, conns, h[k], start, h[..k]);
      assert h[..k + 1] == h[..k] + [h[k]];
    }
    assert h[..|h|] == h;
  }

  lemma NothingYet(start: View, h: seq<Action>)
    ensures Follows(start, start, h[..0]) && forall c :: OpenEvents(h[..0], c) == []
  {
    assert h[..0] == [];
  }

  ghost predicate Follows(v: View, start: View, h: seq<Action>) { v == Fold(start, Observed(h)) }

  ghost predicate Buffered(conns: seq<ObservedConnection>, h: seq<Action>)
    reads conns
  {
    forall c :: 0 <= c < |conns| ==> conns[c].pending == OpenEvents(h, c)
  }

  /** One more call of the history. */
  method Next(observer: Observer, conns: seq<ObservedConnection>, a: Action, ghost start: View, ghost front: seq<Action>)
    requires forall i, j :: 0 <= i < j < |conns| ==> conns[i] != conns[j]
    requires a.conn < |conns| && Follows(observer.Snapshot(), start, front) && Buffered(conns, front)
    modifies observer, conns
    ensures Follows(observer.Snapshot(), start, front + [a]) && Buffered(conns, front + [a])
  {
    ghost var handed := if a.Commit? && a.succeeds then AllStamped(conns[a.conn].pending, a.stamp) else [];
    ObservedNext(front, a);
    FoldConcat(start, Observed(front), handed);
    Perform(observer, conns, a);
    hide Fold, Observed, OpenEvents, AllStamped;
    forall c | 0 <= c < |conns| ensures conns[c].pending == OpenEvents(front + [a], c) {
      OpenEventsNext(front, a, c);
      assert c != a.conn ==> conns[c] != conns[a.conn];
    }
  }
}
