/** Resuming an event stream with Last-Event-ID: the subscriber of the benchmark runtime
    (scripts/benchmarks/scale_002_runtime.py, Runtime.subscribe) against the bounded-batch server rule
    of the pipeline fixture (frontend/e2e/pipeline-fixtures.ts). */
module EventStream {
  import opened Outcomes

  datatype Event = Event(sequence: int, terminal: bool)

  /** The server answers with at most this many events. */
  const BATCH := 100

  /** Sequences are positive and strictly increasing. */
  ghost predicate Log(log: seq<Event>) {
    && (forall i :: 0 <= i < |log| ==> 0 < log[i].sequence)
    && (forall i, j :: 0 <= i < j < |log| ==> log[i].sequence < log[j].sequence)
  }

  /** Sequences run 1, 2, ..., n. */
  ghost predicate Numbered(log: seq<Event>) {
    forall i :: 0 <= i < |log| ==> log[i].sequence == i + 1
  }

  function After(log: seq<Event>, cursor: int): seq<Event> {
    if log == [] then []
    else (if log[0].sequence > cursor then [log[0]] else []) + After(log[1..], cursor)
  }

  /** One response: the first BATCH events past the cursor. */
  function Serve(log: seq<Event>, cursor: int): seq<Event> {
    var later := After(log, cursor);
    if |later| <= BATCH then later else later[..BATCH]
  }

  function Sequences(log: seq<Event>): (r: seq<int>)
    ensures |r| == |log| && forall i :: 0 <= i < |log| ==> r[i] == log[i].sequence
  {
    seq(|log|, i requires 0 <= i < |log| => log[i].sequence)
  }

  /** The cursor of a subscriber that has taken the first `p` events. */
  function CursorAt(log: seq<Event>, p: nat): int
    requires p <= |log|
  {
    if p == 0 then 0 else log[p - 1].sequence
  }

  lemma {:induction false} AfterAll(log: seq<Event>, cursor: int)
    requires forall i :: 0 <= i < |log| ==> log[i].sequence > cursor
    ensures After(log, cursor) == log
  {
    if log != [] { AfterAll(log[1..], cursor); }
  }

  /** What is past the cursor is the unread rest of whatever prefix the server sees. */
  lemma AfterIsSuffix(log: seq<Event>, p: nat, visible: nat)
    requires Log(log) && p <= |log| && visible <= |log|
    ensures After(log[..visible], CursorAt(log, p)) == if p <= visible then log[p..visible] else []
    decreases visible
  {
    AfterIsSuffixFrom(log, p, visible, 0);
    assert log[0..visible] == log[..visible];
  }

  lemma {:induction false} AfterIsSuffixFrom(log: seq<Event>, p: nat, visible: nat, k: nat)
    requires Log(log) && p <= |log| && k <= visible <= |log|
    ensures After(log[k..visible], CursorAt(log, p)) == if Max(p, k) <= visible then log[Max(p, k)..visible] else []
    decreases visible - k
  {
    if k < visible {
      var rest := log[k..visible];
      assert rest[1..] == log[k + 1..visible] && rest[0] == log[k];
      AfterIsSuffixFrom(log, p, visible, k + 1);
      assert log[k].sequence > CursorAt(log, p) <==> p <= k;
      hide Log, CursorAt;
      assert [log[k]] + log[k + 1..visible] == rest;
    }
  }

  // ---------------------------------------------------------------- the subscriber

  /** How one connection goes: it is refused, or the server sees this many events of the log. */
  datatype Poll = Refused | Sees(visible: nat)

  datatype Report = Report(observed: seq<int>, duplicates: nat, disorders: nat, missing: nat, resumeFailures: nat,
                           connections: nat)

  function Visible(log: seq<Event>, polls: seq<Poll>, k: nat): nat
    requires k < |polls| ==> polls[k].Sees?
  {
    if k < |polls| then Min(polls[k].visible, |log|) else |log|
  }

  /** Event `i` of a response was not read before, in it or earlier. */
  ghost predicate NewAt(observed: seq<int>, batch: seq<Event>, i: nat)
    requires i < |batch|
  {
    batch[i].sequence !in observed && forall j :: 0 <= j < i ==> batch[j].sequence != batch[i].sequence
  }

  ghost predicate RisesAt(cursor: int, batch: seq<Event>, i: nat)
    requires i < |batch|
  {
    batch[i].sequence > if i == 0 then cursor else batch[i - 1].sequence
  }

  /** How many of the first k events of a response were read before, and how many do not rise. */
  ghost function Repeats(observed: seq<int>, batch: seq<Event>, k: nat): nat
    requires k <= |batch|
  {
    if k == 0 then 0 else Repeats(observed, batch, k - 1) + if NewAt(observed, batch, k - 1) then 0 else 1
  }

  ghost function Falls(cursor: int, batch: seq<Event>, k: nat): nat
    requires k <= |batch|
  {
    if k == 0 then 0 else Falls(cursor, batch, k - 1) + if RisesAt(cursor, batch, k - 1) then 0 else 1
  }

  /** Reading one response, event by event. */
  method ReadBatch(batch: seq<Event>, cursor0: int, observed0: seq<int>, terminal0: bool)
    returns (cursor: int, observed: seq<int>, duplicates: nat, disorders: nat, terminal: bool)
    ensures observed == observed0 + Sequences(batch)
    ensures cursor == if batch == [] then cursor0 else batch[|batch| - 1].sequence
    ensures terminal <==> terminal0 || exists i :: 0 <= i < |batch| && batch[i].terminal
    ensures duplicates == Repeats(observed0, batch, |batch|) && disorders == Falls(cursor0, batch, |batch|)
    ensures duplicates == 0 <==> forall i :: 0 <= i < |batch| ==> NewAt(observed0, batch, i)
    ensures disorders == 0 <==> forall i :: 0 <= i < |batch| ==> RisesAt(cursor0, batch, i)
  {
    cursor, observed, duplicates, disorders, terminal := cursor0, observed0, 0, 0, terminal0;
    for k := 0 to |batch|
      invariant observed == observed0 + Sequences(batch[..k])
      invariant cursor == if k == 0 then cursor0 else batch[k - 1].sequence
      invariant terminal <==> terminal0 || exists i :: 0 <= i < k && batch[i].terminal
      invariant duplicates == Repeats(observed0, batch, k) && disorders == Falls(cursor0, batch, k)
    {
      var sequence := batch[k].sequence;
      SeenBefore(observed0, batch, k);
      if sequence in observed { duplicates := duplicates + 1; }
      if sequence <= cursor { disorders := disorders + 1; }
      assert RisesAt(cursor0, batch, k) <==> sequence > cursor;
      observed := observed + [sequence];
      assert Sequences(batch[..k + 1]) == Sequences(batch[..k]) + [sequence];
      cursor := sequence;
      terminal := terminal || batch[k].terminal;
    }
    assert batch[..|batch|] == batch;
    NoneRepeated(observed0, cursor0, batch, |batch|);
  }

  lemma {:induction false} NoneRepeated(observed: seq<int>, cursor: int, batch: seq<Event>, k: nat)
    requires k <= |batch|
    ensures Repeats(observed, batch, k) == 0 <==> forall i :: 0 <= i < k ==> NewAt(observed, batch, i)
    ensures Falls(cursor, batch, k) == 0 <==> forall i :: 0 <= i < k ==> RisesAt(cursor, batch, i)
  {
    hide NewAt, RisesAt;
    if k > 0 { NoneRepeated(observed, cursor, batch, k - 1); }
  }

  lemma SeenBefore(observed0: seq<int>, batch: seq<Event>, k: nat)
    requires k < |batch|
    ensures batch[k].sequence in observed0 + Sequences(batch[..k]) <==> !NewAt(observed0, batch, k)
  {
    var earlier := Sequences(batch[..k]);
    if j :| 0 <= j < k && batch[j].sequence == batch[k].sequence {
      assert earlier[j] == batch[k].sequence;
    }
  }

  lemma BatchIsNew(log: seq<Event>, p: nat, q: nat)
    requires Log(log) && p <= q <= |log|
    ensures forall i :: 0 <= i < q - p ==> NewAt(Sequences(log[..p]), log[p..q], i) && RisesAt(CursorAt(log, p), log[p..q], i)
  {
    var seen, batch := Sequences(log[..p]), log[p..q];
    forall i | 0 <= i < q - p ensures NewAt(seen, batch, i) && RisesAt(CursorAt(log, p), batch, i) {
      assert batch[i] == log[p + i];
      assert forall j :: 0 <= j < p ==> seen[j] == log[j].sequence < log[p + i].sequence;
      assert forall j :: 0 <= j < i ==> batch[j] == log[p + j];
    }
  }

  /** Index of the first terminal event. */
  function FirstTerminal(log: seq<Event>): (f: nat)
    ensures f <= |log|
    ensures f < |log| ==> log[f].terminal
    ensures forall i :: 0 <= i < f ==> !log[i].terminal
  {
    if log == [] || log[0].terminal then 0 else 1 + FirstTerminal(log[1..])
  }

  /** How many events a subscriber that has `p` has after one response over `visible` events. */
  function Taken(p: nat, visible: nat): nat {
    if p <= visible then Min(visible, p + BATCH) else p
  }

  lemma ServeIsNext(log: seq<Event>, p: nat, visible: nat)
    requires Log(log) && p <= |log| && visible <= |log|
    ensures Serve(log[..visible], CursorAt(log, p)) == log[p..Taken(p, visible)]
  {
    AfterIsSuffix(log, p, visible);
  }

  lemma Joined(log: seq<Event>, p: nat, q: nat)
    requires p <= q <= |log|
    ensures Sequences(log[..q]) == Sequences(log[..p]) + Sequences(log[p..q])
    ensures CursorAt(log, q) == if p == q then CursorAt(log, p) else log[p..q][q - p - 1].sequence
  {
  }

  /** How many events a subscriber has after `k` connections. */
  function Progress(log: seq<Event>, polls: seq<Poll>, k: nat): (p: nat)
    requires forall i :: 0 <= i < k && i < |polls| ==> polls[i].Sees?
    ensures p <= |log|
  {
    if k == 0 then 0
    else
      Taken(Progress(log, polls, k - 1), Visible(log, polls, k - 1))
  }

  /** One connection: send the cursor, read the whole response. */
  method Connect(log: seq<Event>, visible: nat, ghost p: nat, cursor0: int, observed0: seq<int>, terminal0: bool)
    returns (ghost q: nat, cursor: int, observed: seq<int>, duplicates: nat, disorders: nat, terminal: bool)
    requires Log(log) && FirstTerminal(log) < |log| && p <= FirstTerminal(log) && visible <= |log|
    requires observed0 == Sequences(log[..p]) && cursor0 == CursorAt(log, p) && !terminal0
    ensures q == Taken(p, visible)
    ensures observed == Sequences(log[..q]) && cursor == CursorAt(log, q) && duplicates == 0 && disorders == 0
    ensures terminal <==> FirstTerminal(log) < q
  {
    hide After, Repeats, Falls, FirstTerminal;
    var batch := Serve(log[..visible], cursor0);
    q := Taken(p, visible);
    ServeIsNext(log, p, visible);
    BatchIsNew(log, p, q);
    cursor, observed, duplicates, disorders, terminal := ReadBatch(batch, cursor0, observed0, terminal0);
    TerminalInBatch(log, p, q);
    Joined(log, p, q);
  }

  lemma ResumeFailsIff(log: seq<Event>, cursor: int)
    ensures Sequences(Serve(log, cursor)) != Sequences(After(log, cursor)) <==> |After(log, cursor)| > BATCH
  {
    assert |After(log, cursor)| <= BATCH || |Sequences(Serve(log, cursor))| < |Sequences(After(log, cursor))|;
  }

  /** Whatever part of the log each connection can see, the subscriber ends with a prefix of the log,
      in order and without repetition: everything up to and including the batch that holds the first
      terminal event. What is missing is exactly the rest, and the final resume check fails exactly when
      one response cannot hold the events past its cursor. (Without a terminal event the source polls
      for ever, hence the second requires.) */
  method Subscribe(log: seq<Event>, polls: seq<Poll>) returns (r: Result<Report>)
    requires Log(log) && FirstTerminal(log) < |log|
    ensures r.Raised? ==> exists k :: 0 <= k < |polls| && polls[k].Refused?
    ensures r.Ok? ==> Reported(log, polls, r.value)
  {
    hide After, Serve, FirstTerminal, Log, Sequences;
    var cursor, observed, terminal := 0, [], false;
    var duplicates, disorders, k := 0, 0, 0;
    ghost var p: nat := 0;
    assert log[..0] == [];
    while !terminal
      invariant forall i :: 0 <= i < k && i < |polls| ==> polls[i].Sees?
      invariant p == Progress(log, polls, k)
      invariant observed == Sequences(log[..p]) && cursor == CursorAt(log, p)
      invariant terminal <==> FirstTerminal(log) < p
      invariant terminal ==> k > 0 && Progress(log, polls, k - 1) <= FirstTerminal(log)
      invariant duplicates == 0 && disorders == 0
      decreases !terminal, Max(0, |polls| - k) + |log| - p
    {
      if k < |polls| && polls[k].Refused? {
        return Raised("sse_connection_failure");
      }
      var visible := Visible(log, polls, k);
      var d, o: nat;
      p, cursor, observed, d, o, terminal := Connect(log, visible, p, cursor, observed, terminal);
      duplicates, disorders := duplicates + d, disorders + o;
      k := k + 1;
    }
    var missing := MissingFrom(log, p, observed);
    var resumeCursor := Min(3, cursor);
    ResumeFailsIff(log, resumeCursor);
    var resumeFailed := Sequences(Serve(log, resumeCursor)) != Sequences(After(log, resumeCursor));
    r := Ok(Report(observed, duplicates, disorders, missing, if resumeFailed then 1 else 0, k));
  }

  ghost predicate Reported(log: seq<Event>, polls: seq<Poll>, r: Report) {
    && 0 < r.connections
    && (forall i :: 0 <= i < r.connections && i < |polls| ==> polls[i].Sees?)
    && (var p := Progress(log, polls, r.connections);
        && Progress(log, polls, r.connections - 1) <= FirstTerminal(log) < p
        && r.observed == Sequences(log[..p])
        && r.duplicates == 0 && r.disorders == 0 && r.missing == |log| - p
        && r.resumeFailures == if |After(log, Min(3, CursorAt(log, p)))| <= BATCH then 0 else 1)
  }

  lemma TerminalInBatch(log: seq<Event>, p: nat, q: nat)
    requires p <= q <= |log| && p <= FirstTerminal(log)
    ensures (exists i :: 0 <= i < |log[p..q]| && log[p..q][i].terminal) <==> FirstTerminal(log) < q
  {
    if FirstTerminal(log) < q {
      assert log[p..q][FirstTerminal(log) - p].terminal;
    }
  }

  ghost function AsSet(s: seq<int>): set<int> { set x | x in s }

  /** len(set(expected) - set(observed)), both taken over the log. */
  method MissingFrom(log: seq<Event>, ghost p: nat, observed: seq<int>) returns (missing: nat)
    requires Log(log) && p <= |log| && observed == Sequences(log[..p])
    ensures missing == |log| - p
  {
    var expected := Sequences(log);
    var unseen := (set s | s in expected) - (set s | s in observed);
    DistinctRest(log, p);
    RestUnseen(log, p);
    missing := |unseen|;
  }

  lemma RestUnseen(log: seq<Event>, p: nat)
    requires Log(log) && p <= |log|
    ensures AsSet(Sequences(log)) - AsSet(Sequences(log[..p])) == AsSet(Sequences(log[p..]))
  {
    var a, b := Sequences(log[..p]), Sequences(log[p..]);
    assert Sequences(log) == a + b;
    forall i, j | 0 <= i < |a| && 0 <= j < |b| ensures a[i] != b[j] {
    }
  }

  lemma {:induction false} DistinctRest(log: seq<Event>, p: nat)
    requires Log(log) && p <= |log|
    ensures |AsSet(Sequences(log[p..]))| == |log| - p
    decreases |log| - p
  {
    if p == |log| {
      assert AsSet(Sequences(log[p..])) == {};
    } else {
      DistinctRest(log, p + 1);
      var rest := Sequences(log[p + 1..]);
      assert Sequences(log[p..]) == [log[p].sequence] + rest;
      assert AsSet(Sequences(log[p..])) == {log[p].sequence} + AsSet(rest);
      assert forall i :: 0 <= i < |rest| ==> rest[i] != log[p].sequence;
    }
  }

  // ---------------------------------------------------------------- what the report says

  /** When the terminal event is the last, every event 1..n is delivered exactly once and in order,
      however the log was growing while it was read. */
  lemma TerminalLastIsComplete(log: seq<Event>, polls: seq<Poll>, r: Report)
    requires Numbered(log) && FirstTerminal(log) == |log| - 1 && Reported(log, polls, r)
    ensures |r.observed| == |log| && (forall i :: 0 <= i < |log| ==> r.observed[i] == i + 1) && r.missing == 0
  {
  }

  /** The resume check of such a run passes exactly when the run has at most 103 events. */
  lemma ResumeCheckBound(log: seq<Event>, polls: seq<Poll>, r: Report)
    requires Numbered(log) && FirstTerminal(log) == |log| - 1 && Reported(log, polls, r)
    ensures r.resumeFailures == if |log| <= 103 then 0 else 1
  {
    assert Log(log);
    var c := Min(3, |log|);
    AfterIsSuffix(log, c, |log|);
    assert log[..|log|] == log && |After(log, Min(3, CursorAt(log, |log|)))| == |log| - c;
    hide After;
  }

  /** No subscriber of a log can miss anything if and only if its first terminal event is its last event. */
  lemma NothingMissingIff(log: seq<Event>)
    requires Log(log) && FirstTerminal(log) < |log|
    ensures (forall polls, r :: Reported(log, polls, r) ==> r.missing == 0) <==> FirstTerminal(log) == |log| - 1
  {
    if FirstTerminal(log) < |log| - 1 {
      var polls, r := LateEventIsMissed(log);
      assert Reported(log, polls, r) && r.missing != 0;
    }
  }

  /** When every connection sees the same prefix of the log, each one takes the next BATCH events of it. */
  lemma {:induction false} SteadyProgress(log: seq<Event>, polls: seq<Poll>, visible: nat, k: nat)
    requires visible <= |log| && k <= |polls| && forall i :: 0 <= i < |polls| ==> polls[i] == Sees(visible)
    ensures Progress(log, polls, k) == Min(k * BATCH, visible)
  {
    if k > 0 {
      SteadyProgress(log, polls, visible, k - 1);
    }
  }

  /** The report of a subscriber that read p events over c connections. */
  function ReportAt(log: seq<Event>, c: nat, p: nat): Report
    requires p <= |log|
  {
    var resumed := |After(log, Min(3, CursorAt(log, p)))| <= BATCH;
    Report(Sequences(log[..p]), 0, 0, |log| - p, if resumed then 0 else 1, c)
  }

  /** Event f is read by the last of just enough connections. */
  lemma TakenInTime(log: seq<Event>, polls: seq<Poll>, f: nat, c: nat)
    requires f < |log| && c == f / BATCH + 1 && |polls| == c && forall i :: 0 <= i < c ==> polls[i] == Sees(f + 1)
    ensures Progress(log, polls, c - 1) <= f && Progress(log, polls, c) == f + 1
  {
    SteadyProgress(log, polls, f + 1, c - 1);
    SteadyProgress(log, polls, f + 1, c);
  }

  /** Whatever is logged after the first terminal event is lost to a subscriber that connects before it is
      logged: that subscriber reports exactly those events as missing. */
  lemma LateEventIsMissed(log: seq<Event>) returns (polls: seq<Poll>, r: Report)
    requires Log(log) && FirstTerminal(log) < |log|
    ensures Reported(log, polls, r) && r.missing == |log| - 1 - FirstTerminal(log)
  {
    var f := FirstTerminal(log);
    polls := seq(f / BATCH + 1, _ => Sees(f + 1));
    TakenInTime(log, polls, f, |polls|);
    r := ReportAt(log, |polls|, f + 1);
  }
}
