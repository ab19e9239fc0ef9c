/** The durable request ledger (src/evaluation/request_ledger.py): every provider request first reserves a
    numbered slot in an append-only file, and its outcome is recorded after it. A lock file is held while a call
    is under way. The process may die after any character it writes. */
module RequestLedger {
  import opened Outcomes
  import opened Jsonl
  import TextLines

  /** What a request is for. Calibration and the replicates of a campaign share one ledger. */
  datatype Kind = Calibrating | Generating | Correcting | Judging
  datatype Operation = Operation(kind: Kind, run: string, caseId: string)

  type Sha = string
  type Response = string

  datatype Row =
    | Reserved(slot: nat, op: Operation, sha: Sha, attempt: nat)
    | Completed(slot: nat, op: Operation, sha: Sha, response: Response)
    | Errored(slot: nat, op: Operation, sha: Sha, retryable: bool)

  // ---------------------------------------------------------------- the life of one operation

  datatype Phase =
    | Idle
    | Pending(attempt: nat, slot: nat, sha: Sha)
    | Failed(attempts: nat, retryable: bool, sha: Sha)
    | Finished(response: Response, sha: Sha)
    | Broken

  /** Two attempts at most, the second only after a retryable error, nothing after a completion, and every
      result matching the slot that was reserved for it. */
  function Move(ph: Phase, r: Row): Phase {
    match r
    case Reserved(slot, _, sha, attempt) =>
      if ph.Idle? && attempt == 1 then Pending(1, slot, sha)
      else if ph.Failed? && ph.attempts == 1 && ph.retryable && ph.sha == sha && attempt == 2 then Pending(2, slot, sha)
      else Broken
    case Completed(slot, _, sha, response) =>
      if ph.Pending? && ph.slot == slot && ph.sha == sha then Finished(response, sha) else Broken
    case Errored(slot, _, sha, retryable) =>
      if ph.Pending? && ph.slot == slot && ph.sha == sha then Failed(ph.attempt, retryable, sha) else Broken
  }

  function PhaseOf(rows: seq<Row>, op: Operation): Phase {
    if rows == [] then Idle
    else
      var ph, last := PhaseOf(rows[..|rows| - 1], op), rows[|rows| - 1];
      if last.op == op then Move(ph, last) else ph
  }

  function Used(rows: seq<Row>): nat {
    if rows == [] then 0 else Used(rows[..|rows| - 1]) + if rows[|rows| - 1].Reserved? then 1 else 0
  }

  lemma {:induction false} UsedIs(rows: seq<Row>)
    ensures Used(rows) == |set i | 0 <= i < |rows| && rows[i].Reserved?|
  {
    if rows != [] {
      var n := |rows| - 1;
      UsedIs(rows[..n]);
      var reserved := set i | 0 <= i < |rows| && rows[i].Reserved?;
      assert reserved - {n} == set i | 0 <= i < n && rows[..n][i].Reserved?;
    }
  }

  /** Slots are numbered 1, 2, ... in the order they were reserved. */
  ghost predicate Numbered(rows: seq<Row>) {
    forall i :: 0 <= i < |rows| ==> NumberedAt(rows, i)
  }

  predicate NumberedAt(rows: seq<Row>, i: nat)
    requires i < |rows|
  {
    rows[i].Reserved? ==> rows[i].slot == Used(rows[..i]) + 1
  }

  /** A slot is the number of reservations up to its own. */
  lemma NumberedMeans(rows: seq<Row>, i: nat)
    requires Numbered(rows) && i < |rows| && rows[i].Reserved?
    ensures rows[i].slot == 1 + |set k | 0 <= k < i && rows[k].Reserved?|
  {
    assert NumberedAt(rows, i);
    UsedIs(rows[..i]);
    assert (set k | 0 <= k < i && rows[k].Reserved?) == set k | 0 <= k < i && rows[..i][k].Reserved?;
  }

  ghost predicate RowsSound(rows: seq<Row>, limit: nat) {
    Used(rows) <= limit && Numbered(rows) && forall op :: !PhaseOf(rows, op).Broken?
  }

  lemma AppendSound(rows: seq<Row>, r: Row, limit: nat)
    requires RowsSound(rows, limit) && !Move(PhaseOf(rows, r.op), r).Broken?
    requires r.Reserved? ==> r.slot == Used(rows) + 1 && Used(rows) < limit
    ensures RowsSound(rows + [r], limit)
    ensures forall op :: PhaseOf(rows + [r], op) == if op == r.op then Move(PhaseOf(rows, op), r) else PhaseOf(rows, op)
  {
    AppendPhases(rows, r);
    AppendNumbered(rows, r);
  }

  lemma AppendPhases(rows: seq<Row>, r: Row)
    ensures forall op :: PhaseOf(rows + [r], op) == if op == r.op then Move(PhaseOf(rows, op), r) else PhaseOf(rows, op)
    ensures Used(rows + [r]) == Used(rows) + if r.Reserved? then 1 else 0
  {
    assert (rows + [r])[..|rows|] == rows;
  }

  lemma AppendNumbered(rows: seq<Row>, r: Row)
    requires Numbered(rows) && (r.Reserved? ==> r.slot == Used(rows) + 1)
    ensures Numbered(rows + [r])
  {
    var all := rows + [r];
    forall i | 0 <= i < |all| ensures NumberedAt(all, i) {
      if i < |rows| {
        assert NumberedAt(rows, i) && all[..i] == rows[..i] && all[i] == rows[i];
      } else {
        assert all[..i] == rows;
      }
    }
  }

  // ---------------------------------------------------------------- what the code looks at

  function Matching(rows: seq<Row>, op: Operation): seq<Row> {
    if rows == [] then []
    else Matching(rows[..|rows| - 1], op) + (if rows[|rows| - 1].op == op then [rows[|rows| - 1]] else [])
  }

  function Count(rows: seq<Row>, kind: Row -> bool): nat {
    if rows == [] then 0 else Count(rows[..|rows| - 1], kind) + if kind(rows[|rows| - 1]) then 1 else 0
  }

  const RESERVES := (r: Row) => r.Reserved?
  const ERRORS := (r: Row) => r.Errored?
  const COMPLETIONS := (r: Row) => r.Completed?

  function LastResponse(rows: seq<Row>): Option<Response> {
    if rows == [] then None
    else if rows[|rows| - 1].Completed? then Some(rows[|rows| - 1].response) else LastResponse(rows[..|rows| - 1])
  }

  function LastRetryable(rows: seq<Row>): Option<bool> {
    if rows == [] then None
    else if rows[|rows| - 1].Errored? then Some(rows[|rows| - 1].retryable) else LastRetryable(rows[..|rows| - 1])
  }

  /** The rows of an operation, read as the code reads them, say what phase it is in. */
  ghost predicate Describes(m: seq<Row>, ph: Phase) {
    var reserves, errors := Count(m, RESERVES), Count(m, ERRORS);
    match ph
    case Idle => m == []
    case Pending(attempt, _, sha) =>
      1 <= attempt <= 2 && reserves == attempt && errors == attempt - 1 && LastResponse(m).None?
      && Count(m, COMPLETIONS) == 0 && SameSha(m, sha)
    case Failed(attempts, retryable, sha) =>
      1 <= attempts <= 2 && reserves == errors == attempts && LastResponse(m).None? && Count(m, COMPLETIONS) == 0
      && LastRetryable(m) == Some(retryable) && SameSha(m, sha)
    case Finished(response, sha) =>
      LastResponse(m) == Some(response) && Count(m, COMPLETIONS) == 1 && reserves <= 2 && SameSha(m, sha)
    case Broken => true
  }

  ghost predicate SameSha(m: seq<Row>, sha: Sha) {
    m != [] && forall i :: 0 <= i < |m| ==> m[i].sha == sha
  }

  lemma DescribesMove(m: seq<Row>, ph: Phase, r: Row)
    requires Describes(m, ph)
    ensures Describes(m + [r], Move(ph, r))
  {
    var n := m + [r];
    assert n[..|n| - 1] == m && n[|n| - 1] == r;
    if m == [] { assert n == [r]; }
  }

  lemma {:induction false} PhaseDescribes(rows: seq<Row>, op: Operation)
    ensures Describes(Matching(rows, op), PhaseOf(rows, op))
  {
    if rows != [] {
      var front, last := rows[..|rows| - 1], rows[|rows| - 1];
      PhaseDescribes(front, op);
      if last.op == op {
        DescribesMove(Matching(front, op), PhaseOf(front, op), last);
      } else {
        assert Matching(front, op) + [] == Matching(front, op);
      }
    }
  }

  /** The retry protocol still allows a request: none was made, or one failed in a way worth retrying. */
  predicate MaySend(rows: seq<Row>, op: Operation, sha: Sha) {
    PhaseOf(rows, op).Idle? || PhaseOf(rows, op) == Failed(1, true, sha)
  }

  /** The rows of an operation in each phase: one reservation for each attempt, its error behind it, and a completion
      at the end. */
  ghost predicate Went(m: seq<Row>, op: Operation, ph: Phase) {
    var n := |m|;
    match ph
    case Idle => m == []
    case Pending(attempt, slot, sha) => 1 <= attempt && n == 2 * attempt - 1 && m[n - 1] == Reserved(slot, op, sha, attempt)
    case Failed(attempts, retryable, sha) =>
      1 <= attempts && n == 2 * attempts && m[n - 2] == Reserved(m[n - 2].slot, op, sha, attempts)
      && m[n - 1] == Errored(m[n - 2].slot, op, sha, retryable)
    case Finished(response, sha) => m != [] && m[n - 1] == Completed(m[n - 1].slot, op, sha, response)
    case Broken => true
  }

  /** Anything behind the first two rows belongs to a second attempt at the same request, after an error worth
      retrying. */
  ghost predicate Retried(m: seq<Row>, op: Operation) {
    |m| > 2 ==>
      && m[1] == Errored(m[0].slot, op, m[0].sha, true)
      && m[2] == Reserved(m[2].slot, op, m[0].sha, 2) && |m| <= 4
      && (|m| == 4 ==> !m[3].Reserved? && m[3].slot == m[2].slot && m[3].sha == m[0].sha)
  }

  lemma WentOn(m: seq<Row>, op: Operation, ph: Phase, r: Row)
    requires Went(m, op, ph) && (!ph.Broken? ==> Retried(m, op)) && r.op == op
    ensures Went(m + [r], op, Move(ph, r)) && (!Move(ph, r).Broken? ==> Retried(m + [r], op))
  {
    assert m != [] ==> (m + [r])[|m| - 1] == m[|m| - 1];
  }

  lemma {:induction false} RowsWent(rows: seq<Row>, op: Operation)
    ensures Went(Matching(rows, op), op, PhaseOf(rows, op))
    ensures !PhaseOf(rows, op).Broken? ==> Retried(Matching(rows, op), op)
  {
    if rows != [] {
      var front, last := rows[..|rows| - 1], rows[|rows| - 1];
      RowsWent(front, op);
      if last.op == op {
        WentOn(Matching(front, op), op, PhaseOf(front, op), last);
      } else {
        assert Matching(front, op) + [] == Matching(front, op);
      }
    }
  }

  /** A request may be sent exactly when the operation has no row yet, or just a first attempt for this very request
      and the retryable error it met. */
  lemma MaySendIff(rows: seq<Row>, op: Operation, sha: Sha)
    requires !PhaseOf(rows, op).Broken?
    ensures MaySend(rows, op, sha) <==>
              || Matching(rows, op) == []
              || exists slot :: Matching(rows, op) == [Reserved(slot, op, sha, 1), Errored(slot, op, sha, true)]
  {
    RowsWent(rows, op);
    var m := Matching(rows, op);
    if MaySend(rows, op, sha) && m != [] {
      assert m == [Reserved(m[0].slot, op, sha, 1), Errored(m[0].slot, op, sha, true)];
    }
  }

  /** The rows of an operation are all of them, in order. */
  lemma {:induction false} MatchingConcat(a: seq<Row>, b: seq<Row>, op: Operation)
    ensures Matching(a + b, op) == Matching(a, op) + Matching(b, op)
    ensures forall r :: r in Matching(a, op) <==> r in a && r.op == op
  {
    if b != [] {
      var n := |b| - 1;
      MatchingConcat(a, b[..n], op);
      assert (a + b)[..|a + b| - 1] == a + b[..n];
    } else {
      assert a + b == a;
      MatchingHas(a, op);
    }
  }

  lemma {:induction false} MatchingHas(rows: seq<Row>, op: Operation)
    ensures forall r :: r in Matching(rows, op) <==> r in rows && r.op == op
  {
    if rows != [] {
      MatchingHas(rows[..|rows| - 1], op);
      assert rows == rows[..|rows| - 1] + [rows[|rows| - 1]];
    }
  }

  /** A response is stored for a request exactly when the file holds its completed row, and it is the response there. */
  lemma {:induction false} StoredIff(rows: seq<Row>, op: Operation, sha: Sha)
    requires !PhaseOf(rows, op).Broken?
    ensures StoredFor(rows, op, sha) <==> CompletedFor(rows, op, sha)
    ensures forall i :: 0 <= i < |rows| && rows[i].Completed? && rows[i].op == op ==>
              PhaseOf(rows, op) == Finished(rows[i].response, rows[i].sha)
  {
    if rows != [] {
      var front, last := rows[..|rows| - 1], rows[|rows| - 1];
      StoredIff(front, op, sha);
      assert forall i :: 0 <= i < |front| ==> rows[i] == front[i];
      if StoredFor(rows, op, sha) { FinishedHasRow(rows, op); }
    }
  }

  /** The ledger already holds the answer to this very request. */
  predicate StoredFor(rows: seq<Row>, op: Operation, sha: Sha) {
    PhaseOf(rows, op).Finished? && PhaseOf(rows, op).sha == sha
  }

  /** What comes of the requests still allowed: the first answer, or the second after a retryable failure --
      one request only when a failed one went before -- as long as the budget lasts and the file reads back. */
  function WillAnswer(f: Format<Row>, b: Journal<Row>, op: Operation, sha: Sha, limit: nat, reply: nat -> Reply): Option<Response> {
    var used := Used(b.rows);
    if used >= limit then None
    else if reply(used + 1).Answers? then Some(reply(used + 1).response)
    else if PhaseOf(b.rows, op).Idle? && reply(used + 1).retryable
            && !b.file.open && CleanRows(f, [Reserved(used + 1, op, sha, 1), Errored(used + 1, op, sha, true)])
            && used + 1 < limit && reply(used + 2).Answers?
    then Some(reply(used + 2).response)
    else None
  }

  /** The file holds a completed row for this very request. */
  predicate CompletedFor(rows: seq<Row>, op: Operation, sha: Sha) {
    exists i :: 0 <= i < |rows| && rows[i].Completed? && rows[i].op == op && rows[i].sha == sha
  }

  lemma {:induction false} FinishedHasRow(rows: seq<Row>, op: Operation)
    requires PhaseOf(rows, op).Finished?
    ensures CompletedFor(rows, op, PhaseOf(rows, op).sha)
  {
    var front, last := rows[..|rows| - 1], rows[|rows| - 1];
    if last.op != op {
      FinishedHasRow(front, op);
      var sha := PhaseOf(front, op).sha;
      var i :| 0 <= i < |front| && front[i].Completed? && front[i].op == op && front[i].sha == sha;
      assert rows[i] == front[i];
    }
  }

  /** No operation is ever sent more than twice or completed more than once, and a second time only for the same
      request, after an error worth retrying. */
  lemma AtMostTwoSends(rows: seq<Row>, limit: nat, op: Operation)
    requires RowsSound(rows, limit)
    ensures Count(Matching(rows, op), RESERVES) <= 2 && Count(Matching(rows, op), COMPLETIONS) <= 1
    ensures Retried(Matching(rows, op), op)
  {
    RowsWent(rows, op);
    PhaseDescribes(rows, op);
  }

  lemma {:induction false} PrefixSound(rows: seq<Row>, n: nat, limit: nat)
    requires RowsSound(rows, limit) && n <= |rows|
    ensures RowsSound(rows[..n], limit)
    decreases |rows|
  {
    if n < |rows| {
      var front := rows[..|rows| - 1];
      forall op ensures !PhaseOf(front, op).Broken? {
        assert !PhaseOf(rows, op).Broken?;
      }
      forall i | 0 <= i < |front| ensures NumberedAt(front, i) {
        assert NumberedAt(rows, i) && front[..i] == rows[..i] && front[i] == rows[i];
      }
      PrefixSound(front, n, limit);
      assert front[..n] == rows[..n];
    } else {
      assert rows[..n] == rows;
    }
  }

  // ---------------------------------------------------------------- the checks on reading the ledger

  predicate ReservedIn(rows: seq<Row>, slot: nat, op: Operation, sha: Sha) {
    exists k :: 0 <= k < |rows| && rows[k].Reserved? && rows[k].slot == slot && rows[k].op == op && rows[k].sha == sha
  }

  /** A result is recorded for this slot. */
  predicate TakenIn(rows: seq<Row>, slot: nat) {
    exists k :: 0 <= k < |rows| && !rows[k].Reserved? && rows[k].slot == slot
  }

  predicate ResultFits(rows: seq<Row>, i: nat)
    requires i < |rows|
  {
    !rows[i].Reserved? ==> ReservedIn(rows, rows[i].slot, rows[i].op, rows[i].sha) && !TakenIn(rows[..i], rows[i].slot)
  }

  /** What reading demands of the rows: slots numbered in order and within the budget, first or second attempts
      only, and one result at most for each slot, under the identity it was reserved for. */
  predicate Acceptable(rows: seq<Row>, limit: nat) {
    && Used(rows) <= limit
    && (forall i :: 0 <= i < |rows| ==> NumberedAt(rows, i))
    && (forall i :: 0 <= i < |rows| ==> rows[i].Reserved? ==> 1 <= rows[i].attempt <= 2)
    && (forall i :: 0 <= i < |rows| ==> ResultFits(rows, i))
  }

  lemma {:induction false} UsedGrows(rows: seq<Row>, i: nat, j: nat)
    requires i <= j <= |rows|
    ensures Used(rows[..i]) <= Used(rows[..j])
    ensures i < j && rows[i].Reserved? ==> Used(rows[..i]) < Used(rows[..j])
  {
    if i < j {
      UsedGrows(rows, i, j - 1);
      assert rows[..j][..j - 1] == rows[..j - 1];
    }
  }

  /** Different reservations have different slots, none of them above the number used. */
  lemma SlotsDiffer(rows: seq<Row>, i: nat, j: nat)
    requires Numbered(rows) && i < |rows| && j < |rows| && rows[i].Reserved? && rows[j].Reserved?
    ensures rows[i].slot <= Used(rows) && (rows[i].slot == rows[j].slot ==> i == j)
  {
    assert NumberedAt(rows, i) && NumberedAt(rows, j) && rows[..|rows|] == rows;
    UsedGrows(rows, i, |rows|);
    if i < j {
      UsedGrows(rows, i, j);
    } else {
      UsedGrows(rows, j, i);
    }
  }

  /** The slot an operation waits for was reserved for it, and has no result yet. */
  predicate PendingFits(rows: seq<Row>, op: Operation) {
    var ph := PhaseOf(rows, op);
    ph.Pending? ==> ReservedIn(rows, ph.slot, op, ph.sha) && !TakenIn(rows, ph.slot)
  }

  /** Reading never refuses rows that the calls wrote themselves. */
  lemma {:induction false} OwnRowsAreAcceptable(rows: seq<Row>, limit: nat)
    requires RowsSound(rows, limit)
    ensures Acceptable(rows, limit)
    ensures forall op :: PendingFits(rows, op)
    decreases |rows|
  {
    if rows == [] {
    } else {
      var n := |rows| - 1;
      var front, r := rows[..n], rows[n];
      PrefixSound(rows, n, limit);
      OwnRowsAreAcceptable(front, limit);
      assert PendingFits(front, r.op) && !PhaseOf(rows, r.op).Broken?;
      forall i | 0 <= i < |rows| ensures ResultFits(rows, i) {
        NextFits(rows, i);
      }
      forall op ensures PendingFits(rows, op) {
        NextPending(rows, op);
      }
    }
  }

  lemma NextFits(rows: seq<Row>, i: nat)
    requires i < |rows|
    requires var front := rows[..|rows| - 1];
             PendingFits(front, rows[|rows| - 1].op) && (i < |front| ==> ResultFits(front, i))
    requires !PhaseOf(rows, rows[|rows| - 1].op).Broken?
    ensures ResultFits(rows, i)
  {
    var front := rows[..|rows| - 1];
    assert front[..if i < |front| then i else 0] == rows[..if i < |front| then i else 0];
    ReservedStays(front, rows, rows[i].slot, rows[i].op, rows[i].sha);
  }

  lemma ReservedStays(a: seq<Row>, b: seq<Row>, slot: nat, op: Operation, sha: Sha)
    requires a <= b
    ensures ReservedIn(a, slot, op, sha) ==> ReservedIn(b, slot, op, sha)
  {
    if ReservedIn(a, slot, op, sha) {
      var k :| 0 <= k < |a| && a[k].Reserved? && a[k].slot == slot && a[k].op == op && a[k].sha == sha;
      assert b[k] == a[k];
    }
  }

  lemma NextPending(rows: seq<Row>, op: Operation)
    requires rows != [] && Numbered(rows) && !PhaseOf(rows, rows[|rows| - 1].op).Broken?
    requires var front := rows[..|rows| - 1];
             PendingFits(front, op) && PendingFits(front, rows[|rows| - 1].op)
             && forall i :: 0 <= i < |front| ==> ResultFits(front, i)
    ensures PendingFits(rows, op)
  {
    var n, ph := |rows| - 1, PhaseOf(rows, op);
    var front, r := rows[..n], rows[n];
    if ph.Pending? {
      ReservedStays(front, rows, ph.slot, op, ph.sha);
      assert NumberedAt(rows, n) && (r.op == op ==> r == Reserved(ph.slot, op, ph.sha, ph.attempt));
      assert ReservedIn(rows, ph.slot, op, ph.sha);
      forall k | 0 <= k < |rows| && !rows[k].Reserved? ensures rows[k].slot != ph.slot {
        if k < n {
          assert rows[k] == front[k] && ResultFits(front, k);
          ResultBelow(rows, k, n);
          assert front[k].slot == ph.slot ==> TakenIn(front, ph.slot);
        } else {
          OtherSlot(rows, r.slot, r.op, r.sha, ph.slot, op, ph.sha);
        }
      }
    }
  }

  lemma ResultBelow(rows: seq<Row>, k: nat, n: nat)
    requires k < n <= |rows| && Numbered(rows) && !rows[k].Reserved? && ResultFits(rows[..n], k)
    ensures rows[k].slot <= Used(rows[..n])
  {
    var front := rows[..n];
    assert front[k] == rows[k];
    var i :| 0 <= i < |front| && front[i].Reserved? && front[i].slot == front[k].slot;
    assert NumberedAt(rows, i) && rows[..i] == front[..i] && front[..n] == front;
    UsedGrows(front, i, n);
  }

  lemma OtherSlot(rows: seq<Row>, slot: nat, op: Operation, sha: Sha, slot2: nat, op2: Operation, sha2: Sha)
    requires Numbered(rows) && op != op2 && ReservedIn(rows, slot, op, sha) && ReservedIn(rows, slot2, op2, sha2)
    ensures slot != slot2
  {
    var i :| 0 <= i < |rows| && rows[i].Reserved? && rows[i].slot == slot && rows[i].op == op && rows[i].sha == sha;
    var j :| 0 <= j < |rows| && rows[j].Reserved? && rows[j].slot == slot2 && rows[j].op == op2 && rows[j].sha == sha2;
    SlotsDiffer(rows, i, j);
  }

  // ---------------------------------------------------------------- what has left for the provider

  /** A request that was sent: it cannot be taken back, whenever the process dies. */
  datatype Request = Request(slot: nat, op: Operation, sha: Sha)

  predicate RequestFits(rows: seq<Row>, q: Request) { ReservedIn(rows, q.slot, q.op, q.sha) }

  /** Every request ever sent has its slot in the ledger, and no slot was used for two. */
  predicate SentSound(rows: seq<Row>, sent: seq<Request>) {
    && (forall i :: 0 <= i < |sent| ==> RequestFits(rows, sent[i]))
    && (forall i, j :: 0 <= i < j < |sent| ==> sent[i].slot < sent[j].slot)
  }

  function SendsOf(sent: seq<Request>, op: Operation): nat {
    if sent == [] then 0 else SendsOf(sent[..|sent| - 1], op) + if sent[|sent| - 1].op == op then 1 else 0
  }

  lemma {:induction false} SendsAre(sent: seq<Request>, op: Operation)
    ensures SendsOf(sent, op) == |set i | 0 <= i < |sent| && sent[i].op == op|
  {
    if sent != [] {
      var n := |sent| - 1;
      SendsAre(sent[..n], op);
      var sends := set i | 0 <= i < |sent| && sent[i].op == op;
      assert sends - {n} == set i | 0 <= i < n && sent[..n][i].op == op;
    }
  }

  /** The requests these rows reserve. */
  function Requests(rows: seq<Row>): seq<Request> {
    if rows == [] then []
    else
      var last := rows[|rows| - 1];
      Requests(rows[..|rows| - 1]) + if last.Reserved? then [Request(last.slot, last.op, last.sha)] else []
  }

  /** Exactly the requests reserved in between were sent, each once and in order. */
  predicate SentFor(rows: seq<Row>, sent: seq<Request>, now: seq<Row>, nowSent: seq<Request>) {
    rows <= now && nowSent == sent + Requests(now[|rows|..])
  }

  lemma NothingSent(rows: seq<Row>, sent: seq<Request>)
    ensures SentFor(rows, sent, rows, sent)
  {
    assert rows[|rows|..] == [] && sent + [] == sent;
  }

  lemma {:induction false} RequestsConcat(a: seq<Row>, b: seq<Row>)
    ensures Requests(a + b) == Requests(a) + Requests(b)
  {
    if b == [] {
      assert a + b == a;
    } else {
      assert (a + b)[..|a + b| - 1] == a + b[..|b| - 1];
      RequestsConcat(a, b[..|b| - 1]);
    }
  }

  lemma SentOn(a: seq<Row>, s: seq<Request>, b: seq<Row>, t: seq<Request>, c: seq<Row>, u: seq<Request>)
    requires SentFor(a, s, b, t) && SentFor(b, t, c, u)
    ensures SentFor(a, s, c, u)
  {
    hide Requests;
    assert c == a + b[|a|..] + c[|b|..];
    assert c[|a|..] == b[|a|..] + c[|b|..];
    RequestsConcat(b[|a|..], c[|b|..]);
    assert s + Requests(b[|a|..]) + Requests(c[|b|..]) == s + (Requests(b[|a|..]) + Requests(c[|b|..]));
  }

  lemma SentStays(a: seq<Row>, b: seq<Row>, sent: seq<Request>)
    requires SentSound(a, sent) && a <= b
    ensures SentSound(b, sent)
  {
    forall i | 0 <= i < |sent| ensures RequestFits(b, sent[i]) {
      assert RequestFits(a, sent[i]);
      ReservedStays(a, b, sent[i].slot, sent[i].op, sent[i].sha);
    }
  }

  lemma SentBelow(rows: seq<Row>, q: Request)
    requires Numbered(rows) && RequestFits(rows, q)
    ensures 1 <= q.slot <= Used(rows)
  {
    var k :| 0 <= k < |rows| && rows[k].Reserved? && rows[k].slot == q.slot && rows[k].op == q.op && rows[k].sha == q.sha;
    assert NumberedAt(rows, k);
    SlotsDiffer(rows, k, k);
  }

  /** The slot reserved last is free for a request. */
  lemma NextSend(before: seq<Row>, sent: seq<Request>, op: Operation, sha: Sha, attempt: nat)
    requires Numbered(before) && SentSound(before, sent)
    ensures var slot := Used(before) + 1;
            SentSound(before + [Reserved(slot, op, sha, attempt)], sent + [Request(slot, op, sha)])
  {
    var slot := Used(before) + 1;
    var rows, more := before + [Reserved(slot, op, sha, attempt)], sent + [Request(slot, op, sha)];
    SentStays(before, rows, sent);
    forall i | 0 <= i < |more| ensures RequestFits(rows, more[i]) {
      assert i < |sent| ==> more[i] == sent[i];
      assert rows[|before|] == Reserved(slot, op, sha, attempt);
    }
    forall i, j | 0 <= i < j < |more| ensures more[i].slot < more[j].slot {
      assert RequestFits(before, sent[i]);
      SentBelow(before, sent[i]);
    }
  }

  lemma {:induction false} SentCount(rows: seq<Row>, sent: seq<Request>)
    requires Numbered(rows) && SentSound(rows, sent)
    ensures |sent| <= Used(rows) && (sent != [] ==> |sent| <= sent[|sent| - 1].slot)
    decreases |sent|
  {
    if sent != [] {
      var front := sent[..|sent| - 1];
      assert forall i :: 0 <= i < |front| ==> front[i] == sent[i];
      SentCount(rows, front);
      SentBelow(rows, sent[|sent| - 1]);
    }
  }

  /** An operation was sent at most as often as it was reserved. */
  lemma {:induction false} SendsReserved(rows: seq<Row>, sent: seq<Request>, op: Operation)
    requires Numbered(rows) && SentSound(rows, sent)
    ensures SendsOf(sent, op) <= Count(Matching(rows, op), RESERVES)
    decreases |rows|
  {
    if rows == [] {
      SentCount(rows, sent);
    } else {
      var n := |rows| - 1;
      var front, r := rows[..n], rows[n];
      FrontNumbered(rows);
      var now := if r.Reserved? && sent != [] && sent[|sent| - 1].slot == r.slot then sent[..|sent| - 1] else sent;
      SentInFront(rows, sent);
      SendsReserved(front, now, op);
      var m := Matching(front, op);
      assert r.op == op ==> (m + [r])[..|m|] == m;
      assert r.op != op ==> m + [] == m;
      if now != sent {
        LastSendIs(rows, sent);
      }
    }
  }

  lemma FrontNumbered(rows: seq<Row>)
    requires rows != [] && Numbered(rows)
    ensures Numbered(rows[..|rows| - 1])
  {
    var front := rows[..|rows| - 1];
    forall i | 0 <= i < |front| ensures NumberedAt(front, i) {
      assert NumberedAt(rows, i) && front[..i] == rows[..i] && front[i] == rows[i];
    }
  }

  lemma LastSendIs(rows: seq<Row>, sent: seq<Request>)
    requires Numbered(rows) && SentSound(rows, sent) && rows != [] && sent != []
    requires rows[|rows| - 1].Reserved? && sent[|sent| - 1].slot == rows[|rows| - 1].slot
    ensures sent[|sent| - 1].op == rows[|rows| - 1].op
  {
    var q := sent[|sent| - 1];
    assert RequestFits(rows, q);
    var k :| 0 <= k < |rows| && rows[k].Reserved? && rows[k].slot == q.slot && rows[k].op == q.op && rows[k].sha == q.sha;
    SlotsDiffer(rows, k, |rows| - 1);
  }

  /** Without the request that used the last row's slot, every request has its slot in front of that row. */
  lemma SentInFront(rows: seq<Row>, sent: seq<Request>)
    requires rows != [] && Numbered(rows) && SentSound(rows, sent)
    ensures var r := rows[|rows| - 1];
            SentSound(rows[..|rows| - 1],
                      if r.Reserved? && sent != [] && sent[|sent| - 1].slot == r.slot then sent[..|sent| - 1] else sent)
  {
    var n := |rows| - 1;
    var front, r := rows[..n], rows[n];
    var now := if r.Reserved? && sent != [] && sent[|sent| - 1].slot == r.slot then sent[..|sent| - 1] else sent;
    assert NumberedAt(rows, n) && (r.Reserved? ==> r.slot == Used(rows));
    forall i | 0 <= i < |now| ensures RequestFits(front, now[i]) {
      var q, last := sent[i], sent[|sent| - 1];
      assert RequestFits(rows, q) && RequestFits(rows, last);
      SentBelow(rows, last);
      var k :| 0 <= k < |rows| && rows[k].Reserved? && rows[k].slot == q.slot && rows[k].op == q.op && rows[k].sha == q.sha;
      assert k != n;
      assert front[k] == rows[k];
    }
  }

  /** Whatever died when: the budget bounds the requests ever sent, no slot was sent twice, and no operation more
      than twice. */
  lemma SentWithinBudget(rows: seq<Row>, sent: seq<Request>, limit: nat, op: Operation)
    requires RowsSound(rows, limit) && SentSound(rows, sent)
    ensures |sent| <= |set i | 0 <= i < |rows| && rows[i].Reserved?| <= limit
    ensures |set i | 0 <= i < |sent| && sent[i].op == op| <= 2
    ensures forall i, j :: 0 <= i < j < |sent| ==> sent[i].slot != sent[j].slot
  {
    SentCount(rows, sent);
    SendsReserved(rows, sent, op);
    SendsAre(sent, op);
    UsedIs(rows);
    AtMostTwoSends(rows, limit, op);
  }

  // ---------------------------------------------------------------- the ledger file and its lock

  /** Everything that outlives the process: the file, whether the lock file is there, and what was sent. */
  datatype Books = Books(journal: Journal<Row>, locked: bool, sent: seq<Request>)

  predicate CleanRows(f: Format<Row>, rows: seq<Row>) {
    forall i :: 0 <= i < |rows| ==> TextLines.Clean(f.render(rows[i]))
  }

  ghost predicate SoundBooks(f: Format<Row>, limit: nat, b: Books) {
    RowsSound(b.journal.rows, limit) && Faithful(f, b.journal) && SentSound(b.journal.rows, b.sent)
  }

  /** Rows, characters and requests are only ever added. */
  predicate BooksGrow(f: Format<Row>, a: Books, b: Books) {
    a.journal.rows <= b.journal.rows && Content(f, a.journal.file) <= Content(f, b.journal.file) && a.sent <= b.sent
  }

  /** A call can do anything only without a lock and with a file that reads back. */
  predicate Usable(f: Format<Row>, b: Books) { !b.locked && Readable(f, b.journal) }

  function StateAt(t: seq<Books>, k: nat): Books
    requires k < |t|
  {
    t[k]
  }

  /** A history of the ledger: every state is sound, and follows from the one before by adding characters. */
  ghost predicate SoundHistory(f: Format<Row>, limit: nat, t: seq<Books>) {
    && (forall k :: 0 <= k < |t| ==> SoundBooks(f, limit, StateAt(t, k)))
    && (forall k :: 0 < k < |t| ==> BooksGrow(f, t[k - 1], StateAt(t, k)))
  }

  lemma HistoryNext(f: Format<Row>, limit: nat, t: seq<Books>, next: Books)
    requires SoundHistory(f, limit, t) && SoundBooks(f, limit, next) && (t != [] ==> BooksGrow(f, t[|t| - 1], next))
    ensures SoundHistory(f, limit, t + [next])
  {
    var u := t + [next];
    forall k | 0 <= k < |u| ensures SoundBooks(f, limit, StateAt(u, k)) {
      assert k < |t| ==> StateAt(u, k) == StateAt(t, k);
    }
    forall k | 0 < k < |u| ensures BooksGrow(f, u[k - 1], StateAt(u, k)) {
      assert k < |t| ==> StateAt(u, k) == StateAt(t, k) && u[k - 1] == t[k - 1];
    }
  }

  lemma HistoryPrefix(f: Format<Row>, limit: nat, t: seq<Books>, n: nat)
    requires SoundHistory(f, limit, t) && n <= |t|
    ensures SoundHistory(f, limit, t[..n])
  {
    var u := t[..n];
    forall k | 0 <= k < n ensures SoundBooks(f, limit, StateAt(u, k)) {
      assert StateAt(u, k) == StateAt(t, k);
    }
    forall k | 0 < k < n ensures BooksGrow(f, u[k - 1], StateAt(u, k)) {
      assert StateAt(u, k) == StateAt(t, k) && u[k - 1] == t[k - 1];
    }
  }

  /** Only states with this lock were added. */
  ghost predicate Held(a: seq<Books>, b: seq<Books>, locked: bool) {
    a <= b && forall k :: |a| <= k < |b| ==> StateAt(b, k).locked == locked
  }

  lemma HeldOn(a: seq<Books>, b: seq<Books>, c: seq<Books>, locked: bool)
    requires Held(a, b, locked) && Held(b, c, locked)
    ensures Held(a, c, locked)
  {
    forall k | |a| <= k < |c| ensures StateAt(c, k).locked == locked {
      assert k < |b| ==> StateAt(c, k) == StateAt(b, k);
    }
  }

  lemma NothingHeld(t: seq<Books>, locked: bool)
    ensures Held(t, t, locked)
  {
  }

  lemma OneHeld(a: seq<Books>, b: seq<Books>, last: Books)
    requires b == a + [last]
    ensures Held(a, b, last.locked)
  {
  }

  /** Of the states added, the last is without the lock and all others, at least one, have it. */
  ghost predicate LockedInside(a: seq<Books>, b: seq<Books>) {
    |a| + 2 <= |b| && Held(a, b[..|b| - 1], true) && !b[|b| - 1].locked
  }

  lemma InsideIsLocked(a: seq<Books>, b: seq<Books>, c: seq<Books>, d: seq<Books>)
    requires a <= b && |b| == |a| + 1 && b[|a|].locked && Held(b, c, true)
    requires c <= d && |d| == |c| + 1 && !d[|c|].locked
    ensures LockedInside(a, d)
  {
    assert StateAt(b, |a|).locked && Held(a, b, true);
    HeldOn(a, b, c, true);
    assert d[..|d| - 1] == c;
  }

  /** The books after the first n characters of a row. */
  function Writing(f: Format<Row>, b: Books, r: Row, n: nat): Books
    requires Writable(b.journal.file) && n <= |RowText(f, r)|
  {
    b.(journal := Recorded(f, b.journal, r, n))
  }

  /** One state for each further character of a row. */
  ghost predicate Spelled(f: Format<Row>, t: seq<Books>, from: nat, b: Books, r: Row, n: nat)
    requires Writable(b.journal.file) && n <= |RowText(f, r)|
  {
    |t| == from + n && forall k :: from <= k < from + n ==> StateAt(t, k) == Writing(f, b, r, k - from + 1)
  }

  lemma SpelledNext(f: Format<Row>, t: seq<Books>, from: nat, b: Books, r: Row, n: nat)
    requires Writable(b.journal.file) && n < |RowText(f, r)| && Spelled(f, t, from, b, r, n)
    ensures Spelled(f, t + [Writing(f, b, r, n + 1)], from, b, r, n + 1)
  {
    var u := t + [Writing(f, b, r, n + 1)];
    forall k | from <= k < |u| ensures StateAt(u, k) == Writing(f, b, r, k - from + 1) {
      assert k < |t| ==> StateAt(u, k) == StateAt(t, k);
    }
  }

  lemma SpelledIsHeld(f: Format<Row>, a: seq<Books>, t: seq<Books>, b: Books, r: Row, n: nat)
    requires Writable(b.journal.file) && n <= |RowText(f, r)|
    requires a <= t && Spelled(f, t, |a|, b, r, n)
    ensures Held(a, t, b.locked)
  {
  }

  lemma CleanConcat(f: Format<Row>, a: seq<Row>, b: seq<Row>)
    ensures CleanRows(f, a + b) <==> CleanRows(f, a) && CleanRows(f, b)
  {
    var all := a + b;
    assert forall i :: 0 <= i < |a| ==> all[i] == a[i];
    assert forall i :: 0 <= i < |b| ==> all[|a| + i] == b[i];
  }

  lemma RecordedSound(f: Format<Row>, limit: nat, j: Journal<Row>, r: Row, n: nat)
    requires Sound(f) && Faithful(f, j) && Writable(j.file) && n <= |RowText(f, r)|
    requires RowsSound(j.rows, limit) && !Move(PhaseOf(j.rows, r.op), r).Broken?
    requires r.Reserved? ==> r.slot == Used(j.rows) + 1 && Used(j.rows) < limit
    ensures RowsSound(Recorded(f, j, r, n).rows, limit) && Faithful(f, Recorded(f, j, r, n))
  {
    RecordedFaithful(f, j, r, n);
    AppendSound(j.rows, r, limit);
  }

  ghost predicate MayRecord(f: Format<Row>, limit: nat, b: Books, r: Row) {
    && SoundBooks(f, limit, b) && !Move(PhaseOf(b.journal.rows, r.op), r).Broken?
    && (r.Reserved? ==> r.slot == Used(b.journal.rows) + 1 && Used(b.journal.rows) < limit)
  }

  lemma NextCharacter(f: Format<Row>, limit: nat, b: Books, r: Row, n: nat)
    requires Sound(f) && Writable(b.journal.file) && MayRecord(f, limit, b, r) && n < |RowText(f, r)|
    ensures SoundBooks(f, limit, Writing(f, b, r, n + 1))
    ensures BooksGrow(f, Writing(f, b, r, n), Writing(f, b, r, n + 1))
  {
    hide Sound, RowsSound, Faithful, SentSound, Content, Appended, PhaseOf, Move, Used;
    RecordedSound(f, limit, b.journal, r, n + 1);
    RecordedGrows(f, b.journal, r, n);
    SentStays(b.journal.rows, Recorded(f, b.journal, r, n + 1).rows, b.sent);
  }

  // ---------------------------------------------------------------- calling the provider

  /** What the rows of an operation already settle: a stored response is returned; changed inputs, a request
      without an outcome and used-up retries raise; and nothing is settled exactly when a request may be sent. */
  method Settled(rows: seq<Row>, op: Operation, sha: Sha) returns (r: Option<Result<Response>>)
    requires !PhaseOf(rows, op).Broken?
    ensures r.None? <==> MaySend(rows, op, sha)
    ensures r.Some? && r.value.Ok? <==> StoredFor(rows, op, sha)
    ensures StoredFor(rows, op, sha) ==> r == Some(Ok(PhaseOf(rows, op).response))
  {
    var matching := Matching(rows, op);
    PhaseDescribes(rows, op);
    if exists i :: 0 <= i < |matching| && matching[i].sha != sha {
      return Some(Raised("operation inputs changed; refusing resume"));
    }
    var stored := LastResponse(matching);
    if stored.Some? { return Some(Ok(stored.value)); }
    var reserves, errors := Count(matching, RESERVES), Count(matching, ERRORS);
    if reserves != errors { return Some(Raised("request outcome is unknown; reserved slot retained")); }
    if errors > 0 && (LastRetryable(matching) == Some(false) || errors >= 2) {
      return Some(Raised("operation exhausted its retry protocol"));
    }
    r := None;
  }

  /** How the provider answers the request of one slot. */
  datatype Reply = Answers(response: Response) | Fails(retryable: bool)

  class Ledger {
    const limit: nat
    const format: Format<Row>
    var books: Books
    /** Every durable state so far, one for each character written. */
    var trace: seq<Books>

    function Rows(): seq<Row> reads this { books.journal.rows }

    ghost predicate Valid() reads this {
      && Sound(format)
      && trace != [] && trace[|trace| - 1] == books
      && SoundHistory(format, limit, trace)
    }

    lemma BooksAreSound()
      requires Valid()
      ensures SoundBooks(format, limit, books)
    {
      assert StateAt(trace, |trace| - 1) == books;
    }

    lemma CanWrite()
      requires Valid() && Readable(format, books.journal)
      ensures Writable(books.journal.file)
    {
      BooksAreSound();
      ReadableIsWritable(format, books.journal);
    }

    lemma NotBroken(op: Operation)
      requires Valid()
      ensures !PhaseOf(Rows(), op).Broken?
    {
      BooksAreSound();
    }

    /** Read the file and check its rows: every row ever recorded, or nothing. The checks refuse nothing. */
    method ReadRows() returns (rows: Option<seq<Row>>)
      requires Valid()
      ensures rows == if Readable(format, books.journal) then Some(Rows()) else None
    {
      BooksAreSound();
      rows := ReadAll(format, books.journal);
      OwnRowsAreAcceptable(Rows(), limit);
      if rows.Some? && !Acceptable(rows.value, limit) { return None; }
    }

    method SetLock(locked: bool)
      requires Valid()
      modifies this
      ensures Valid() && trace == old(trace) + [books] && books == old(books).(locked := locked)
    {
      BooksAreSound();
      Observe(books.(locked := locked));
    }

    constructor (limit: nat, format: Format<Row>)
      requires Sound(format)
      ensures Valid() && Rows() == [] && this.limit == limit && this.format == format && Usable(format, books)
    {
      this.limit, this.format := limit, format;
      books := Books(Journal([], File([], false)), false, []);
      trace := [Books(Journal([], File([], false)), false, [])];
      new;
      assert RowsOf(books.journal.file.lines) == [];
      HistoryNext(format, limit, [], books);
      assert [] + [books] == trace;
    }

    method Observe(next: Books)
      requires Valid() && SoundBooks(format, limit, next) && BooksGrow(format, books, next)
      modifies this
      ensures Valid() && books == next && trace == old(trace) + [next]
    {
      HistoryNext(format, limit, trace, next);
      books := next;
      trace := trace + [next];
    }

    /** Write one row, character by character. */
    method WriteRow(r: Row)
      requires Valid() && Writable(books.journal.file) && !Move(PhaseOf(Rows(), r.op), r).Broken?
      requires r.Reserved? ==> r.slot == Used(Rows()) + 1 && Used(Rows()) < limit
      modifies this
      ensures Valid() && old(trace) <= trace
      ensures Spelled(format, trace, |old(trace)|, old(books), r, |RowText(format, r)|)
      ensures books == Writing(format, old(books), r, |RowText(format, r)|)
    {
      BooksAreSound();
      assert ParsesBack(format, r);
      ghost var t := trace;
      var before, n := books, 0;
      while n < |RowText(format, r)|
        invariant n <= |RowText(format, r)| && Valid() && t <= trace
        invariant Spelled(format, trace, |t|, before, r, n) && books == Writing(format, before, r, n)
      {
        WriteChar(t, before, r, n);
        n := n + 1;
      }
    }

    method WriteChar(ghost t: seq<Books>, before: Books, r: Row, n: nat)
      requires Valid() && Writable(before.journal.file) && MayRecord(format, limit, before, r) && n < |RowText(format, r)|
      requires books == Writing(format, before, r, n)
      requires t <= trace && Spelled(format, trace, |t|, before, r, n)
      modifies this
      ensures Valid() && books == Writing(format, before, r, n + 1)
      ensures t <= trace && Spelled(format, trace, |t|, before, r, n + 1)
    {
      NextCharacter(format, limit, before, r, n);
      SpelledNext(format, trace, |t|, before, r, n);
      Observe(Writing(format, before, r, n + 1));
    }

    method Append(r: Row)
      requires Valid() && Writable(books.journal.file) && !Move(PhaseOf(Rows(), r.op), r).Broken?
      requires r.Reserved? ==> r.slot == Used(Rows()) + 1 && Used(Rows()) < limit
      modifies this
      ensures Valid() && Held(old(trace), trace, books.locked) && books.locked == old(books).locked
      ensures OneMore(format, old(books).journal, books.journal, r) && books.sent == old(books).sent
    {
      AppendedUndamagedIff(format, books.journal.file, r, |RowText(format, r)|);
      ghost var before := books;
      WriteRow(r);
      SpelledIsHeld(format, old(trace), trace, before, r, |RowText(format, r)|);
    }

    /** Send the request whose slot was reserved last. */
    method Send(op: Operation, sha: Sha, reply: nat -> Reply, ghost before: seq<Row>, ghost attempt: nat) returns (sent: Reply)
      requires Valid() && Numbered(before) && SentSound(before, books.sent)
      requires Rows() == before + [Reserved(Used(before) + 1, op, sha, attempt)] && Used(Rows()) == Used(before) + 1
      modifies this
      ensures Valid() && trace == old(trace) + [books] && sent == reply(Used(before) + 1)
      ensures books == old(books).(sent := old(books).sent + [Request(Used(before) + 1, op, sha)])
    {
      BooksAreSound();
      NextSend(before, books.sent, op, sha, attempt);
      var slot := Used(Rows());
      Observe(books.(sent := books.sent + [Request(slot, op, sha)]));
      sent := reply(slot);
    }

    /** One attempt: reserve the next slot, send, record the outcome. */
    method Attempt(op: Operation, sha: Sha, attempt: nat, reply: nat -> Reply) returns (sent: Reply)
      requires Valid() && Readable(format, books.journal) && Used(Rows()) < limit
      requires !Move(PhaseOf(Rows(), op), Reserved(Used(Rows()) + 1, op, sha, attempt)).Broken?
      modifies this
      ensures Valid() && Held(old(trace), trace, books.locked) && books.locked == old(books).locked
      ensures sent == reply(Used(old(Rows())) + 1)
      ensures books.sent == old(books).sent + [Request(Used(old(Rows())) + 1, op, sha)]
      ensures Attempted(format, old(books).journal, books.journal, op, sha, attempt, sent)
    {
      CanWrite();
      BooksAreSound();
      hide SoundHistory, SoundBooks, RowsSound, SentSound, Held, OneMore, Attempted, PhaseOf, Move, Used;
      var slot := Used(Rows()) + 1;
      ghost var before := books;
      Append(Reserved(slot, op, sha, attempt));
      ghost var reserved, t := books.journal, trace;
      AfterReserving(format, limit, before, reserved, op, sha, attempt);
      sent := Send(op, sha, reply, before.journal.rows, attempt);
      ghost var u := trace;
      OneHeld(t, u, books);
      MayConclude(format, before.journal, reserved, op, sha, attempt, sent);
      Append(Outcome(slot, op, sha, sent));
      HeldOn(old(trace), t, u, books.locked);
      HeldOn(old(trace), u, trace, books.locked);
      TwoAppends(format, before.journal, reserved, books.journal, op, sha, attempt, sent);
    }

    /** The call: take the lock, look at the file, and give the lock back whatever comes of it. Without a usable
        ledger it raises and leaves everything as it was. Otherwise it returns the stored response if there is
        one, refuses if the inputs changed, if an earlier request may still be unanswered, or if the retries or
        the budget are used up, and else sends, at most twice. */
    method Call(op: Operation, sha: Sha, reply: nat -> Reply) returns (r: Result<Response>)
      requires Valid()
      modifies this
      ensures Valid() && old(trace) <= trace && books.locked == old(books).locked
      ensures !Usable(format, old(books)) ==> r.Raised? && books == old(books)
      ensures if old(books).locked then trace == old(trace) else LockedInside(old(trace), trace)
      ensures Grew(format, old(books).journal, books.journal)
      ensures r.Ok? ==> PhaseOf(Rows(), op) == Finished(r.value, sha)
      ensures Usable(format, old(books)) ==> Answered(format, old(books).journal, Rows(), op, sha, limit, reply, r)
      ensures SentFor(old(Rows()), old(books).sent, Rows(), books.sent)
    {
      NothingSent(Rows(), books.sent);
      if books.locked { return Raised("ledger is locked; inspect the previous writer before resuming"); }
      SetLock(true);
      ghost var locked := trace;
      r := CallLocked(op, sha, reply);
      ghost var after := trace;
      SetLock(false);
      InsideIsLocked(old(trace), locked, after, trace);
    }

    method CallLocked(op: Operation, sha: Sha, reply: nat -> Reply) returns (r: Result<Response>)
      requires Valid()
      modifies this
      ensures Valid() && Held(old(trace), trace, books.locked) && books.locked == old(books).locked
      ensures !Readable(format, old(books).journal) ==> r.Raised? && books == old(books)
      ensures Grew(format, old(books).journal, books.journal)
      ensures r.Ok? ==> PhaseOf(Rows(), op) == Finished(r.value, sha)
      ensures Readable(format, old(books).journal) ==> Answered(format, old(books).journal, Rows(), op, sha, limit, reply, r)
      ensures SentFor(old(Rows()), old(books).sent, Rows(), books.sent)
    {
      NothingSent(Rows(), books.sent);
      NotBroken(op);
      var rows := ReadRows();
      if rows.None? { return Raised("invalid request ledger"); }
      var settled := Settled(rows.value, op, sha);
      if settled.Some? { return settled.value; }
      var reserves := Count(Matching(rows.value, op), RESERVES);
      PhaseDescribes(rows.value, op);
      r := SendFrom(op, sha, reserves + 1, reply);
    }

    method SendFrom(op: Operation, sha: Sha, first: nat, reply: nat -> Reply) returns (r: Result<Response>)
      requires Valid() && Readable(format, books.journal)
      requires (first == 1 && PhaseOf(Rows(), op).Idle?) || (first == 2 && PhaseOf(Rows(), op) == Failed(1, true, sha))
      modifies this
      ensures Valid() && Held(old(trace), trace, books.locked) && books.locked == old(books).locked
      ensures SentFrom(format, old(books).journal, books.journal, op, sha, limit, first, reply, r)
      ensures SentFor(old(Rows()), old(books).sent, Rows(), books.sent)
    {
      NothingSent(Rows(), books.sent);
      ghost var start := books;
      var attempt := first;
      while attempt < 3
        invariant first <= attempt < 3 && Valid() && Held(old(trace), trace, books.locked) && books.locked == start.locked
        invariant attempt == first ==> books == start
        invariant SentFor(start.journal.rows, start.sent, Rows(), books.sent)
        invariant attempt > first ==> first == 1 && TriedOnce(format, start.journal, books.journal, op, sha, limit, 1, reply, None)
      {
        ghost var here, t := books, trace;
        if attempt > first { StillFailed(format, start.journal, books.journal, op, sha, limit, reply); }
        var done := TryOnce(op, sha, attempt, reply);
        HeldOn(old(trace), t, trace, books.locked);
        SentOn(start.journal.rows, start.sent, here.journal.rows, here.sent, Rows(), books.sent);
        if done.Some? {
          if attempt == first {
            SentOnce(format, start.journal, books.journal, op, sha, limit, first, reply, done.value);
          } else {
            SentTwice(format, start.journal, here.journal, books.journal, op, sha, limit, reply, done.value);
          }
          return done.value;
        }
        attempt := attempt + 1;
      }
      assert false;
      r := Raised("operation exhausted its retry protocol");
    }

    /** One pass of the retry loop: None is a retryable failure of the first attempt. */
    method TryOnce(op: Operation, sha: Sha, attempt: nat, reply: nat -> Reply) returns (done: Option<Result<Response>>)
      requires Valid() && 1 <= attempt <= 2
      requires PhaseOf(Rows(), op) == if attempt == 1 then Idle else Failed(1, true, sha)
      modifies this
      ensures Valid() && Held(old(trace), trace, books.locked) && books.locked == old(books).locked
      ensures TriedOnce(format, old(books).journal, books.journal, op, sha, limit, attempt, reply, done)
      ensures SentFor(old(Rows()), old(books).sent, Rows(), books.sent)
    {
      NothingSent(Rows(), books.sent);
      NothingHeld(trace, books.locked);
      hide SoundHistory, SentFor, Held, Attempted, PhaseOf;
      ghost var before := books;
      var rows := ReadRows();
      if rows.None? { return Some(Raised("invalid request ledger")); }
      if Used(rows.value) >= limit { return Some(Raised("campaign request budget exhausted")); }
      var sent := Attempt(op, sha, attempt, reply);
      AttemptSent(format, before.journal, books.journal, before.sent, op, sha, attempt, sent);
      if sent.Answers? { return Some(Ok(sent.response)); }
      if !sent.retryable || attempt == 2 { return Some(Raised("provider operation failed")); }
      done := None;
    }

    /** Back to an earlier durable state of this history. */
    method Rollback(k: nat)
      requires Valid() && k < |trace|
      modifies this
      ensures Valid() && books == old(trace)[k] && trace == old(trace)[..k + 1]
    {
      HistoryPrefix(format, limit, trace, k + 1);
      books := trace[k];
      trace := trace[..k + 1];
    }

    /** A death anywhere inside a call leaves the lock, and every later call raises, even for a stored response. */
    method DeathInsideLocksOut(op: Operation, sha: Sha, reply: nat -> Reply, at: nat, later: nat -> Reply)
      returns (again: Result<Response>)
      requires Valid() && !books.locked
      modifies this
      ensures Valid() && old(trace) < trace && books.locked && again.Raised?
    {
      var before := trace;
      var _ := Call(op, sha, reply);
      var k := |before| + Min(at, |trace| - 2 - |before|);
      assert StateAt(trace[..|trace| - 1], k).locked && trace[..k + 1][..|before|] == before;
      Rollback(k);
      again := Call(op, sha, later);
    }

    /** A response whose row holds a character splitlines cuts at is returned once, and locks everyone out: from
        then on every call raises, for this operation and for any other. */
    method UncleanAnswerLocksOut(op: Operation, sha: Sha, other: Operation, otherSha: Sha, reply: nat -> Reply, later: nat -> Reply)
      returns (first: Result<Response>, again: Result<Response>, next: Result<Response>)
      requires Valid() && Usable(format, books) && PhaseOf(Rows(), op).Idle? && Used(Rows()) < limit
      requires var slot := Used(Rows()) + 1;
               reply(slot).Answers? && !TextLines.Clean(format.render(Completed(slot, op, sha, reply(slot).response)))
      modifies this
      ensures Valid() && first == Ok(reply(Used(old(Rows())) + 1).response) && again.Raised? && next.Raised?
      ensures PhaseOf(Rows(), op) == Finished(first.value, sha) && !books.locked
    {
      hide SoundHistory, SentFor, LockedInside;
      ghost var slot := Used(Rows()) + 1;
      first := Call(op, sha, reply);
      UncleanPair(format, old(Rows()), slot, op, sha, 1, reply(slot).response);
      again := Call(op, sha, later);
      next := Call(other, otherSha, later);
    }
  }

  /** What a call may do to the file: nothing, or rows behind the others. A file it wrote to has no open line,
      and reads back exactly if it did before, had no open line, and the new rows hold no character splitlines
      cuts at. */
  ghost predicate Grew(f: Format<Row>, b: Journal<Row>, now: Journal<Row>) {
    && b.rows <= now.rows
    && (now.rows == b.rows ==> now == b)
    && (now.rows != b.rows ==>
          !now.file.open
          && (Readable(f, now) <==>
                Readable(f, b) && !b.file.open && CleanRows(f, now.rows[|b.rows|..])))
  }

  /** One more row, written to its end. */
  ghost predicate OneMore(f: Format<Row>, b: Journal<Row>, now: Journal<Row>, r: Row) {
    && now.rows == b.rows + [r] && !now.file.open
    && (Readable(f, now) <==> Readable(f, b) && !b.file.open && TextLines.Clean(f.render(r)))
  }

  /** What an attempt made on a readable file comes to. */
  ghost predicate Attempted(f: Format<Row>, b: Journal<Row>, now: Journal<Row>, op: Operation, sha: Sha, attempt: nat, sent: Reply) {
    var slot := Used(b.rows) + 1;
    var two := [Reserved(slot, op, sha, attempt), Outcome(slot, op, sha, sent)];
    && now.rows == b.rows + two && Used(now.rows) == slot && !now.file.open
    && (Readable(f, now) <==> !b.file.open && CleanRows(f, two))
    && PhaseOf(now.rows, op) == if sent.Answers? then Finished(sent.response, sha) else Failed(attempt, sent.retryable, sha)
  }

  lemma AfterReserving(f: Format<Row>, limit: nat, b: Books, mid: Journal<Row>, op: Operation, sha: Sha, attempt: nat)
    requires SoundBooks(f, limit, b)
    requires OneMore(f, b.journal, mid, Reserved(Used(b.journal.rows) + 1, op, sha, attempt))
    ensures var rows := b.journal.rows;
            && Numbered(rows) && SentSound(rows, b.sent) && Used(mid.rows) == Used(rows) + 1
            && mid.rows == rows + [Reserved(Used(rows) + 1, op, sha, attempt)]
  {
    AppendPhases(b.journal.rows, Reserved(Used(b.journal.rows) + 1, op, sha, attempt));
  }

  lemma MayConclude(f: Format<Row>, b: Journal<Row>, mid: Journal<Row>, op: Operation, sha: Sha, attempt: nat, sent: Reply)
    requires OneMore(f, b, mid, Reserved(Used(b.rows) + 1, op, sha, attempt))
    requires !Move(PhaseOf(b.rows, op), Reserved(Used(b.rows) + 1, op, sha, attempt)).Broken?
    ensures var r := Outcome(Used(b.rows) + 1, op, sha, sent);
            Writable(mid.file) && !r.Reserved? && !Move(PhaseOf(mid.rows, r.op), r).Broken?
  {
    AppendPhases(b.rows, Reserved(Used(b.rows) + 1, op, sha, attempt));
  }

  lemma TwoAppends(f: Format<Row>, b: Journal<Row>, mid: Journal<Row>, now: Journal<Row>, op: Operation, sha: Sha,
                   attempt: nat, sent: Reply)
    requires Readable(f, b) && !Move(PhaseOf(b.rows, op), Reserved(Used(b.rows) + 1, op, sha, attempt)).Broken?
    requires OneMore(f, b, mid, Reserved(Used(b.rows) + 1, op, sha, attempt))
    requires OneMore(f, mid, now, Outcome(Used(b.rows) + 1, op, sha, sent))
    ensures Attempted(f, b, now, op, sha, attempt, sent)
  {
    var slot := Used(b.rows) + 1;
    var first, second := Reserved(slot, op, sha, attempt), Outcome(slot, op, sha, sent);
    PairOfRows(f, b.rows, first, second);
    AppendPhases(b.rows, first);
    AppendPhases(mid.rows, second);
  }

  lemma AttemptSent(f: Format<Row>, b: Journal<Row>, now: Journal<Row>, sent: seq<Request>, op: Operation, sha: Sha,
                    attempt: nat, reply: Reply)
    requires Attempted(f, b, now, op, sha, attempt, reply)
    ensures SentFor(b.rows, sent, now.rows, sent + [Request(Used(b.rows) + 1, op, sha)])
  {
    var slot := Used(b.rows) + 1;
    var two := [Reserved(slot, op, sha, attempt), Outcome(slot, op, sha, reply)];
    assert now.rows[|b.rows|..] == two && two[..1] == [Reserved(slot, op, sha, attempt)];
    assert two[..1][..0] == [] && Requests(two[..1]) == [Request(slot, op, sha)];
    assert Requests(two) == Requests(two[..1]) + [];
  }

  /** What one pass of the retry loop comes to. */
  ghost predicate TriedOnce(f: Format<Row>, b: Journal<Row>, now: Journal<Row>, op: Operation, sha: Sha, limit: nat, attempt: nat,
                            reply: nat -> Reply, done: Option<Result<Response>>) {
    var slot := Used(b.rows) + 1;
    if !Readable(f, b) || slot > limit then done.Some? && done.value.Raised? && now == b
    else
      && Attempted(f, b, now, op, sha, attempt, reply(slot))
      && (reply(slot).Answers? ==> done == Some(Ok(reply(slot).response)))
      && (reply(slot).Fails? ==>
            if !reply(slot).retryable || attempt == 2 then done.Some? && done.value.Raised? else done.None?)
  }

  /** What the retry loop comes to, from a file that reads back. */
  ghost predicate SentFrom(f: Format<Row>, b: Journal<Row>, now: Journal<Row>, op: Operation, sha: Sha, limit: nat, first: nat,
                           reply: nat -> Reply, r: Result<Response>) {
    var slot, will := Used(b.rows) + 1, WillAnswer(f, b, op, sha, limit, reply);
    && Grew(f, b, now)
    && (r.Ok? ==> PhaseOf(now.rows, op) == Finished(r.value, sha))
    && (r.Raised? ==> !PhaseOf(now.rows, op).Finished?)
    && (slot > limit ==> r.Raised? && now == b)
    && r.Ok? == will.Some? && (r.Ok? ==> r.value == will.value)
    && (slot <= limit && reply(slot).Answers? ==>
          now.rows == b.rows + AnsweredRows(slot, op, sha, first, reply(slot).response))
  }

  lemma GrewTwice(f: Format<Row>, a: Journal<Row>, b: Journal<Row>, c: Journal<Row>)
    requires Grew(f, a, b) && Grew(f, b, c)
    ensures Grew(f, a, c)
  {
    var x, y, z := a.rows, b.rows, c.rows;
    assert z[|x|..] == y[|x|..] + z[|y|..];
    CleanConcat(f, y[|x|..], z[|y|..]);
    assert y == x ==> y[|x|..] == [];
    assert z == y ==> z[|y|..] == [];
  }

  lemma TriedGrew(f: Format<Row>, b: Journal<Row>, now: Journal<Row>, op: Operation, sha: Sha, limit: nat, attempt: nat,
                  reply: nat -> Reply, done: Option<Result<Response>>)
    requires TriedOnce(f, b, now, op, sha, limit, attempt, reply, done)
    ensures Grew(f, b, now)
  {
    var slot := Used(b.rows) + 1;
    var two := [Reserved(slot, op, sha, attempt), Outcome(slot, op, sha, reply(slot))];
    assert (b.rows + two)[|b.rows|..] == two;
  }

  lemma SentOnce(f: Format<Row>, b: Journal<Row>, now: Journal<Row>, op: Operation, sha: Sha, limit: nat, first: nat,
                 reply: nat -> Reply, r: Result<Response>)
    requires Readable(f, b) && 1 <= first <= 2
    requires PhaseOf(b.rows, op) == if first == 1 then Idle else Failed(1, true, sha)
    requires TriedOnce(f, b, now, op, sha, limit, first, reply, Some(r))
    ensures SentFrom(f, b, now, op, sha, limit, first, reply, r)
  {
    TriedGrew(f, b, now, op, sha, limit, first, reply, Some(r));
  }

  lemma StillFailed(f: Format<Row>, b: Journal<Row>, now: Journal<Row>, op: Operation, sha: Sha, limit: nat, reply: nat -> Reply)
    requires TriedOnce(f, b, now, op, sha, limit, 1, reply, None)
    ensures PhaseOf(now.rows, op) == Failed(1, true, sha)
  {
  }

  lemma SentTwice(f: Format<Row>, b: Journal<Row>, mid: Journal<Row>, now: Journal<Row>, op: Operation, sha: Sha, limit: nat,
                  reply: nat -> Reply, r: Result<Response>)
    requires Readable(f, b) && PhaseOf(b.rows, op).Idle?
    requires TriedOnce(f, b, mid, op, sha, limit, 1, reply, None) && TriedOnce(f, mid, now, op, sha, limit, 2, reply, Some(r))
    ensures SentFrom(f, b, now, op, sha, limit, 1, reply, r)
  {
    TriedGrew(f, b, mid, op, sha, limit, 1, reply, None);
    TriedGrew(f, mid, now, op, sha, limit, 2, reply, Some(r));
    GrewTwice(f, b, mid, now);
    SecondResult(f, b, mid, now, op, sha, limit, reply, r);
  }

  lemma SecondResult(f: Format<Row>, b: Journal<Row>, mid: Journal<Row>, now: Journal<Row>, op: Operation, sha: Sha, limit: nat,
                     reply: nat -> Reply, r: Result<Response>)
    requires Readable(f, b) && PhaseOf(b.rows, op).Idle?
    requires TriedOnce(f, b, mid, op, sha, limit, 1, reply, None) && TriedOnce(f, mid, now, op, sha, limit, 2, reply, Some(r))
    ensures var will := WillAnswer(f, b, op, sha, limit, reply);
            r.Ok? == will.Some? && (r.Ok? ==> r.value == will.value)
    ensures r.Ok? ==> PhaseOf(now.rows, op) == Finished(r.value, sha)
    ensures r.Raised? ==> !PhaseOf(now.rows, op).Finished?
    ensures Used(b.rows) < limit && !reply(Used(b.rows) + 1).Answers?
  {
  }

  lemma PairOfRows(f: Format<Row>, before: seq<Row>, a: Row, b: Row)
    ensures before + [a] + [b] == before + [a, b]
    ensures CleanRows(f, [a, b]) <==> TextLines.Clean(f.render(a)) && TextLines.Clean(f.render(b))
  {
    assert [a, b][0] == a && [a, b][1] == b;
  }

  function AnsweredRows(slot: nat, op: Operation, sha: Sha, attempt: nat, response: Response): seq<Row> {
    [Reserved(slot, op, sha, attempt), Completed(slot, op, sha, response)]
  }

  lemma UncleanPair(f: Format<Row>, before: seq<Row>, slot: nat, op: Operation, sha: Sha, attempt: nat, response: Response)
    requires !TextLines.Clean(f.render(Completed(slot, op, sha, response)))
    ensures !CleanRows(f, (before + AnsweredRows(slot, op, sha, attempt, response))[|before|..])
  {
    var pair := AnsweredRows(slot, op, sha, attempt, response);
    assert (before + pair)[|before|..] == pair && pair[1] == Completed(slot, op, sha, response);
  }

  /** What a call over usable books comes to: `b` before, `rows` after. */
  ghost predicate Answered(f: Format<Row>, b: Journal<Row>, rows: seq<Row>, op: Operation, sha: Sha, limit: nat,
                           reply: nat -> Reply, r: Result<Response>) {
    var ph, slot := PhaseOf(b.rows, op), Used(b.rows) + 1;
    && (!MaySend(b.rows, op, sha) ==> rows == b.rows && r.Ok? == StoredFor(b.rows, op, sha))
    && (StoredFor(b.rows, op, sha) ==> r == Ok(ph.response))
    && (r.Raised? ==> !StoredFor(rows, op, sha))
    && (MaySend(b.rows, op, sha) ==>
          && (slot > limit ==> r.Raised? && rows == b.rows)
          && (slot <= limit && reply(slot).Answers? ==>
                rows == b.rows + AnsweredRows(slot, op, sha, if ph.Idle? then 1 else 2, reply(slot).response))
          && r.Ok? == WillAnswer(f, b, op, sha, limit, reply).Some?
          && (r.Ok? ==> r.value == WillAnswer(f, b, op, sha, limit, reply).value))
  }

  function Outcome(slot: nat, op: Operation, sha: Sha, sent: Reply): Row {
    match sent
    case Answers(response) => Completed(slot, op, sha, response)
    case Fails(retryable) => Errored(slot, op, sha, retryable)
  }
}
