/** Guarded promotion of a candidate result (scripts/promote_phase2_result.py): check pinned digests and
    the admission contract, archive the old official bytes under their digest, then replace the official
    file atomically. Any write may fail, and the process may die at any recorded disk state. */
module Promotion {
  import opened Outcomes

  type Bytes = string
  type Digest = string

  /** Where a promoted result came from. */
  datatype Provenance = Provenance(candidate: Digest, admission: Digest, previousOfficial: Digest)

  /** How far a run got: what it claims of itself, its counts, and its cases. */
  datatype Case = Case(question: string, generated: bool, judged: bool)
  datatype Coverage = Coverage(providerComplete: bool, eligible: bool, stopped: bool, selected: int, generated: int,
                               judged: int, cases: seq<Case>)

  datatype Doc =
    | ResultDoc(official: bool, coverage: Coverage, binding: string, strategy: string, metrics: string,
                fingerprint: string, body: string, promotion: Option<Provenance>)
    | AdmissionDoc(admission: bool, passed: bool, gates: seq<bool>, candidatePath: string, baselinePath: string,
                   candidate: Digest, baseline: Digest, binding: string, strategy: string, expectedCases: int,
                   candidateMetrics: string, baselineMetrics: string, fingerprint: string)

  const CASES := 30

  datatype Request = Request(candidate: Bytes, admission: Bytes, candidatePath: string, officialPath: string,
                             expectedCandidate: Digest, expectedAdmission: Digest, expectedOfficial: Digest,
                             binding: string, candidateStrategy: string, officialStrategy: string,
                             apply: bool, receipt: bool)

  /** The two official-file paths share one archive directory, keyed by the digest of the archived bytes.
      `past` is history: the bytes that were official before, oldest first. */
  datatype Disk = Disk(official: Bytes, archive: map<Digest, Bytes>, receipts: nat, past: seq<Bytes>)

  function Questions(cases: seq<Case>): set<string> { set i | 0 <= i < |cases| :: cases[i].question }

  /** All thirty distinct cases are generated and judged, and nothing stopped the run. */
  predicate FullyCovered(c: Coverage) {
    && c.providerComplete && c.eligible && !c.stopped
    && c.selected == c.generated == c.judged == CASES
    && |c.cases| == CASES && |Questions(c.cases)| == CASES
    && forall i :: 0 <= i < |c.cases| ==> c.cases[i].generated && c.cases[i].judged
  }

  /** The admission contract: a complete non-official candidate, an official baseline, and a passing
      admission report that is about exactly these two files. */
  predicate Contract(q: Request, candidate: Doc, admission: Doc, official: Doc) {
    && candidate.ResultDoc? && admission.AdmissionDoc? && official.ResultDoc?
    && !candidate.official && FullyCovered(candidate.coverage)
    && candidate.binding == q.binding && candidate.strategy == q.candidateStrategy
    && official.official && official.strategy == q.officialStrategy
    && admission.admission && admission.passed
    && admission.gates != [] && (forall i :: 0 <= i < |admission.gates| ==> admission.gates[i])
    && admission.candidatePath == q.candidatePath && admission.baselinePath == q.officialPath
    && admission.candidate == q.expectedCandidate && admission.baseline == q.expectedOfficial
    && admission.binding == q.binding && admission.strategy == q.candidateStrategy
    && admission.expectedCases == CASES
    && admission.candidateMetrics == candidate.metrics && admission.baselineMetrics == official.metrics
    && admission.fingerprint == candidate.fingerprint
  }

  function Promoted(q: Request, candidate: Doc): Doc
    requires candidate.ResultDoc?
  {
    candidate.(official := true, coverage := candidate.coverage.(providerComplete := true, eligible := true),
               promotion := Some(Provenance(q.expectedCandidate, q.expectedAdmission, q.expectedOfficial)))
  }

  // ---------------------------------------------------------------- why a request is refused

  /** A file is not the one that was pinned. */
  ghost predicate Drifted(c: Codec, q: Request, official: Bytes) {
    c.sha(q.candidate) != q.expectedCandidate || c.sha(q.admission) != q.expectedAdmission || c.sha(official) != q.expectedOfficial
  }

  /** The candidate is no result, is official already, or is short of thirty different cases, each generated and
      judged; or it was made from another binding or strategy. */
  ghost predicate UnfitCandidate(q: Request, doc: Option<Doc>) {
    || doc.None? || !doc.value.ResultDoc? || doc.value.official
    || doc.value.binding != q.binding || doc.value.strategy != q.candidateStrategy
    || var run := doc.value.coverage;
       || !run.providerComplete || !run.eligible || run.stopped
       || run.selected != 30 || run.generated != 30 || run.judged != 30 || |run.cases| != 30
       || (exists i, j :: 0 <= i < j < |run.cases| && run.cases[i].question == run.cases[j].question)
       || (exists i :: 0 <= i < |run.cases| && !(run.cases[i].generated && run.cases[i].judged))
  }

  ghost predicate UnfitBaseline(q: Request, doc: Option<Doc>) {
    doc.None? || !doc.value.ResultDoc? || !doc.value.official || doc.value.strategy != q.officialStrategy
  }

  /** The report does not pass, has no gate or a false one, or is about something else. */
  ghost predicate UnfitReport(q: Request, doc: Option<Doc>) {
    || doc.None? || !doc.value.AdmissionDoc?
    || !doc.value.admission || !doc.value.passed || doc.value.gates == [] || false in doc.value.gates
    || doc.value.candidatePath != q.candidatePath || doc.value.baselinePath != q.officialPath
    || doc.value.candidate != q.expectedCandidate || doc.value.baseline != q.expectedOfficial
    || doc.value.binding != q.binding || doc.value.strategy != q.candidateStrategy || doc.value.expectedCases != 30
  }

  /** The report's figures are not those of the two results. */
  ghost predicate OtherFigures(candidate: Option<Doc>, report: Option<Doc>, official: Option<Doc>) {
    && candidate.Some? && candidate.value.ResultDoc? && report.Some? && report.value.AdmissionDoc?
    && official.Some? && official.value.ResultDoc?
    && (report.value.candidateMetrics != candidate.value.metrics || report.value.baselineMetrics != official.value.metrics
        || report.value.fingerprint != candidate.value.fingerprint)
  }

  ghost predicate Refused(c: Codec, q: Request, official: Bytes) {
    || Drifted(c, q, official)
    || UnfitCandidate(q, c.parse(q.candidate)) || UnfitBaseline(q, c.parse(official)) || UnfitReport(q, c.parse(q.admission))
    || OtherFigures(c.parse(q.candidate), c.parse(q.admission), c.parse(official))
  }

  /** The pinned digests and the contract let a request through exactly when there is no reason to refuse it. */
  lemma AdmissibleUnlessRefused(c: Codec, q: Request, official: Bytes)
    ensures Admissible(c, q, official) <==> !Refused(c, q, official)
  {
    var candidate, admission := c.parse(q.candidate), c.parse(q.admission);
    if candidate.Some? && candidate.value.ResultDoc? {
      CoveredUnlessUnfit(candidate.value.coverage);
    }
    if admission.Some? && admission.value.AdmissionDoc? {
      var gates := admission.value.gates;
      assert false in gates <==> !(forall i :: 0 <= i < |gates| ==> gates[i]);
    }
  }

  lemma CoveredUnlessUnfit(run: Coverage)
    ensures FullyCovered(run) <==>
              && run.providerComplete && run.eligible && !run.stopped
              && run.selected == 30 && run.generated == 30 && run.judged == 30 && |run.cases| == 30
              && !(exists i, j :: 0 <= i < j < |run.cases| && run.cases[i].question == run.cases[j].question)
              && !(exists i :: 0 <= i < |run.cases| && !(run.cases[i].generated && run.cases[i].judged))
  {
    DistinctCount(run.cases);
  }

  /** As many questions as cases means that no two cases share one. */
  lemma {:induction false} DistinctCount(cases: seq<Case>)
    ensures |Questions(cases)| <= |cases|
    ensures |Questions(cases)| == |cases| <==> forall i, j :: 0 <= i < j < |cases| ==> cases[i].question != cases[j].question
  {
    if cases != [] {
      var front, last := cases[..|cases| - 1], cases[|cases| - 1];
      DistinctCount(front);
      QuestionsNext(cases);
      assert forall i :: 0 <= i < |front| ==> front[i] == cases[i];
    }
  }

  lemma QuestionsNext(cases: seq<Case>)
    requires cases != []
    ensures var front, last := cases[..|cases| - 1], cases[|cases| - 1].question;
            && Questions(cases) == Questions(front) + {last}
            && (last in Questions(front) <==> exists i :: 0 <= i < |front| && cases[i].question == last)
  {
    var front := cases[..|cases| - 1];
    forall x | x in Questions(front) ensures x in Questions(cases) {
      var i :| 0 <= i < |front| && front[i].question == x;
      assert cases[i].question == x;
    }
    forall i | 0 <= i < |front| ensures cases[i].question in Questions(front) {
      assert front[i] == cases[i];
    }
  }

  /** How the writes of one run go: how much of a new archive entry is written before it fails (if it
      does), and whether the replacement and the receipt fail before or after taking effect. */
  datatype Write = Completes | FailsBefore | FailsAfter
  datatype Faults = Faults(archivePartial: Option<nat>, official: Write, receipt: Write)

  /** Hashing and JSON, as far as the protocol relies on them. */
  datatype Codec = Codec(sha: Bytes -> Digest, parse: Bytes -> Option<Doc>, render: Doc -> Bytes) {
    ghost predicate Sound() {
      && (forall a, b :: sha(a) == sha(b) ==> a == b)
      && (forall d :: parse(render(d)) == Some(d))
    }
  }

  // ---------------------------------------------------------------- what every disk state satisfies

  /** The official bytes after `i` promotions. */
  function OfficialAt(d: Disk, i: nat): Bytes
    requires i <= |d.past|
  {
    if i < |d.past| then d.past[i] else d.official
  }

  /** Promotion `i` names the digest of the bytes it replaced. */
  ghost predicate Linked(c: Codec, d: Disk, i: nat)
    requires i < |d.past|
  {
    var doc := c.parse(OfficialAt(d, i + 1));
    doc.Some? && doc.value.ResultDoc? && doc.value.official && doc.value.promotion.Some?
    && doc.value.promotion.value.previousOfficial == c.sha(d.past[i])
  }

  predicate Archived(c: Codec, d: Disk, b: Bytes) {
    c.sha(b) in d.archive && d.archive[c.sha(b)] == b
  }

  /** Everything ever replaced is intact in the archive, and every official file links to the one before. */
  ghost predicate Preserved(c: Codec, d: Disk) {
    forall i :: 0 <= i < |d.past| ==> Archived(c, d, d.past[i]) && Linked(c, d, i)
  }

  ghost predicate Keeps(c: Codec, d: Disk, e: Disk) {
    d.archive.Keys <= e.archive.Keys && forall b :: Archived(c, d, b) ==> Archived(c, e, b)
  }

  /** One disk state may follow another: intact archive entries stay, and the official file either stays
      or is replaced by the fully written promotion of `candidate`. */
  ghost predicate Follows(c: Codec, d: Disk, e: Disk, next: Bytes) {
    && Keeps(c, d, e)
    && ((e.official == d.official && e.past == d.past)
        || (e.official == next && e.past == d.past + [d.official] && Archived(c, e, d.official)))
  }

  /** Nothing changes but the archive. */
  ghost predicate ArchiveOnly(c: Codec, d: Disk, e: Disk) {
    Keeps(c, d, e) && e.official == d.official && e.past == d.past
  }

  function WithEntry(d: Disk, key: Digest, content: Bytes): Disk {
    d.(archive := d.archive[key := content])
  }

  function Cut(b: Bytes, n: nat): Bytes { b[..Min(n, |b|)] }

  class Vault {
    const codec: Codec
    var disk: Disk
    /** Every disk state since the beginning; the process may die in any of them. */
    var trace: seq<Disk>

    ghost predicate Safe() reads this {
      && codec.Sound()
      && trace != [] && trace[|trace| - 1] == disk
      && forall i :: 0 <= i < |trace| ==> Preserved(codec, trace[i])
    }

    constructor (codec: Codec, official: Bytes)
      requires codec.Sound()
      ensures Safe() && disk == Disk(official, map[], 0, []) && this.codec == codec
    {
      this.codec := codec;
      disk := Disk(official, map[], 0, []);
      trace := [Disk(official, map[], 0, [])];
    }

    method Write(next: Disk)
      requires Safe() && Preserved(codec, next)
      modifies this
      ensures Safe() && disk == next && trace == old(trace) + [next]
    {
      disk := next;
      trace := trace + [next];
    }

    /** Write one new archive entry: it exists, empty, before its bytes are in it. */
    method CreateEntry(key: Digest, payload: Bytes, partial: Option<nat>)
      requires Safe() && key !in disk.archive
      modifies this
      ensures Safe() && old(trace) <= trace
      ensures disk == WithEntry(old(disk), key, if partial.Some? then Cut(payload, partial.value) else payload)
      ensures forall k :: |old(trace)| <= k < |trace| ==> ArchiveOnly(codec, old(disk), trace[k])
    {
      hide Preserved, ArchiveOnly, Cut;
      ghost var before := disk;
      NewEntry(codec, before, key, []);
      Write(WithEntry(disk, key, []));
      var content := if partial.Some? then Cut(payload, partial.value) else payload;
      NewEntry(codec, before, key, content);
      assert WithEntry(disk, key, content) == WithEntry(before, key, content);
      Write(WithEntry(disk, key, content));
    }

    /** Create the archive entry if it is not there; an existing entry must already hold these bytes. A
        write that is cut short leaves a partial entry behind. */
    method PreserveArchive(payload: Bytes, partial: Option<nat>) returns (raised: bool)
      requires Safe()
      modifies this
      ensures Safe() && old(trace) <= trace
      ensures raised <==> if codec.sha(payload) in old(disk.archive)
                          then old(disk.archive)[codec.sha(payload)] != payload else partial.Some?
      ensures codec.sha(payload) in old(disk.archive) ==> disk == old(disk) && trace == old(trace)
      ensures codec.sha(payload) !in old(disk.archive) ==>
                disk == WithEntry(old(disk), codec.sha(payload), if partial.Some? then Cut(payload, partial.value) else payload)
      ensures forall k :: |old(trace)| <= k < |trace| ==> ArchiveOnly(codec, old(disk), trace[k])
    {
      var key := codec.sha(payload);
      if key in disk.archive {
        raised := disk.archive[key] != payload;
      } else {
        CreateEntry(key, payload, partial);
        raised := partial.Some?;
      }
    }

    /** One promotion. A dry run, a drifted digest, a broken contract or a damaged archive entry leaves the
        disk untouched; every other outcome leaves the official file either as it was or fully promoted. */
    method Promote(q: Request, faults: Faults) returns (r: Result<Digest>)
      requires Safe()
      modifies this
      ensures Safe() && old(trace) <= trace
      ensures !q.apply ==> trace == old(trace)
      ensures Refused(codec, q, old(disk.official)) ==> r.Raised? && trace == old(trace)
      ensures !Admissible(codec, q, old(disk.official)) ==> r.Raised? && trace == old(trace)
      ensures q.apply && Admissible(codec, q, old(disk.official)) && faults.archivePartial.Some?
                && codec.sha(old(disk.official)) !in old(disk.archive) ==>
                r.Raised? && disk == WithEntry(old(disk), codec.sha(old(disk.official)),
                                               Cut(old(disk.official), faults.archivePartial.value))
      ensures Wedged(codec, old(disk)) && q.apply ==> r.Raised? && trace == old(trace)
      ensures Admissible(codec, q, old(disk.official)) && !q.apply ==> r.Ok?
      ensures r.Ok? && q.apply ==>
                && Admissible(codec, q, old(disk.official))
                && disk.official == PromotedBytes(codec, q) && r.value == codec.sha(disk.official)
                && disk.past == old(disk.past) + [old(disk.official)]
                && disk.receipts == old(disk.receipts) + (if q.receipt then 1 else 0)
                && disk.archive == old(disk.archive)[codec.sha(old(disk.official)) := old(disk.official)]
      ensures forall k :: |old(trace)| <= k < |trace| ==>
                Admissible(codec, q, old(disk.official)) && Follows(codec, old(disk), trace[k], PromotedBytes(codec, q))
      ensures q.apply && faults == Faults(None, Completes, Completes) ==>
                (r.Ok? <==> Admissible(codec, q, old(disk.official)) && !Wedged(codec, old(disk)))
                && (r.Ok? <==> !Refused(codec, q, old(disk.official)) && !Wedged(codec, old(disk)))
    {
      AdmissibleUnlessRefused(codec, q, disk.official);
      hide Refused;
      if codec.sha(q.candidate) != q.expectedCandidate { return Raised("candidate drift"); }
      if codec.sha(q.admission) != q.expectedAdmission { return Raised("admission report drift"); }
      if codec.sha(disk.official) != q.expectedOfficial { return Raised("protected official drift"); }
      var candidate, admission, official := codec.parse(q.candidate), codec.parse(q.admission), codec.parse(disk.official);
      if candidate.None? || admission.None? || official.None? { return Raised("must contain one JSON object"); }
      if !Contract(q, candidate.value, admission.value, official.value) { return Raised("promotion contract failed"); }
      var promoted := codec.render(Promoted(q, candidate.value));
      if !q.apply { return Ok(codec.sha(promoted)); }

      r := Apply(q, promoted, faults);
    }

    /** The writing part: archive, replace, and leave a receipt. */
    method Apply(q: Request, promoted: Bytes, faults: Faults) returns (r: Result<Digest>)
      requires Safe() && q.apply && Admissible(codec, q, disk.official) && promoted == PromotedBytes(codec, q)
      modifies this
      ensures Safe() && old(trace) <= trace
      ensures faults.archivePartial.Some? && codec.sha(old(disk.official)) !in old(disk.archive) ==>
                r.Raised? && disk == WithEntry(old(disk), codec.sha(old(disk.official)),
                                               Cut(old(disk.official), faults.archivePartial.value))
      ensures Wedged(codec, old(disk)) ==> r.Raised? && trace == old(trace)
      ensures r.Ok? ==>
                && disk.official == promoted && r.value == codec.sha(promoted)
                && disk.past == old(disk.past) + [old(disk.official)]
                && disk.receipts == old(disk.receipts) + (if q.receipt then 1 else 0)
                && disk.archive == old(disk.archive)[codec.sha(old(disk.official)) := old(disk.official)]
      ensures forall k :: |old(trace)| <= k < |trace| ==> Follows(codec, old(disk), trace[k], promoted)
      ensures faults == Faults(None, Completes, Completes) ==> (r.Ok? <==> !Wedged(codec, old(disk)))
    {
      ghost var before := disk;
      var old_ := disk.official;
      var raised := PreserveArchive(old_, faults.archivePartial);
      if raised { return Raised("immutable archive collision"); }
      if faults.official.FailsBefore? { return Raised("write"); }
      Replaced(codec, before, disk, q, promoted);
      assert forall k :: |old(trace)| <= k < |trace| ==> Follows(codec, before, trace[k], promoted);
      Write(Disk(promoted, disk.archive, disk.receipts, disk.past + [old_]));
      if faults.official.FailsAfter? { return Raised("write"); }
      if !q.receipt { return Ok(codec.sha(promoted)); }
      if faults.receipt.FailsBefore? { return Raised("receipt"); }
      Write(disk.(receipts := disk.receipts + 1));
      if faults.receipt.FailsAfter? { return Raised("receipt"); }
      r := Ok(codec.sha(promoted));
    }

    /** The process dies and only what was on disk in state `k` is left. */
    method Crash(k: nat)
      requires Safe() && k < |trace|
      modifies this
      ensures Safe() && disk == old(trace)[k] && trace == old(trace) + [old(trace)[k]]
    {
      disk := trace[k];
      trace := trace + [disk];
    }
  }

  /** The pinned digests match and the contract holds. */
  predicate Admissible(c: Codec, q: Request, official: Bytes) {
    && c.sha(q.candidate) == q.expectedCandidate && c.sha(q.admission) == q.expectedAdmission
    && c.sha(official) == q.expectedOfficial
    && c.parse(q.candidate).Some? && c.parse(q.admission).Some? && c.parse(official).Some?
    && Contract(q, c.parse(q.candidate).value, c.parse(q.admission).value, c.parse(official).value)
  }

  function PromotedBytes(c: Codec, q: Request): Bytes {
    if c.parse(q.candidate).Some? && c.parse(q.candidate).value.ResultDoc?
    then c.render(Promoted(q, c.parse(q.candidate).value)) else []
  }

  /** A damaged archive entry sits where the official bytes would have to be archived. */
  predicate Wedged(c: Codec, d: Disk) {
    c.sha(d.official) in d.archive && d.archive[c.sha(d.official)] != d.official
  }

  lemma NewEntry(c: Codec, d: Disk, key: Digest, content: Bytes)
    requires c.Sound() && Preserved(c, d) && key !in d.archive
    ensures Preserved(c, WithEntry(d, key, content)) && ArchiveOnly(c, d, WithEntry(d, key, content))
  {
    var e := WithEntry(d, key, content);
    forall i | 0 <= i < |d.past| ensures Archived(c, e, d.past[i]) && Linked(c, e, i) {
      assert Archived(c, d, d.past[i]) && Linked(c, d, i);
      assert OfficialAt(e, i + 1) == OfficialAt(d, i + 1);
    }
  }

  lemma Replaced(c: Codec, before: Disk, d: Disk, q: Request, promoted: Bytes)
    requires c.Sound() && Preserved(c, d) && Archived(c, d, d.official)
    requires ArchiveOnly(c, before, d)
    requires Admissible(c, q, d.official) && promoted == PromotedBytes(c, q)
    ensures forall receipts :: var e := Disk(promoted, d.archive, receipts, d.past + [d.official]);
            Preserved(c, e) && Follows(c, before, e, promoted)
  {
    forall receipts
      ensures var e := Disk(promoted, d.archive, receipts, d.past + [d.official]);
              Preserved(c, e) && Follows(c, before, e, promoted)
    {
      var e := Disk(promoted, d.archive, receipts, d.past + [d.official]);
      forall i | 0 <= i < |e.past| ensures Archived(c, e, e.past[i]) && Linked(c, e, i) {
        if i < |d.past| {
          assert Archived(c, d, d.past[i]) && Linked(c, d, i);
          assert OfficialAt(e, i + 1) == OfficialAt(d, i + 1);
        }
      }
    }
  }

  // ---------------------------------------------------------------- what a history of promotions leaves

  /** Follow the links from the official file back through the archive, `n` times. */
  function WalkBack(c: Codec, d: Disk, n: nat): Option<Bytes> {
    if n == 0 then Some(d.official)
    else
      var later := WalkBack(c, d, n - 1);
      if later.None? then None
      else
        var doc := c.parse(later.value);
        if doc.Some? && doc.value.ResultDoc? && doc.value.promotion.Some?
           && doc.value.promotion.value.previousOfficial in d.archive
        then Some(d.archive[doc.value.promotion.value.previousOfficial])
        else None
  }

  /** From the present official file alone, the archive gives back every earlier official result, newest first. */
  lemma {:induction false} WholeHistoryIsRecoverable(c: Codec, d: Disk, n: nat)
    requires Preserved(c, d) && n <= |d.past|
    ensures WalkBack(c, d, n) == Some(OfficialAt(d, |d.past| - n))
  {
    if n > 0 {
      WholeHistoryIsRecoverable(c, d, n - 1);
      var i := |d.past| - n;
      assert Archived(c, d, d.past[i]) && Linked(c, d, i);
    }
  }

  /** An admission report names one baseline, so the same request is refused once it has been applied -
      exactly when promotion changed the official bytes at all. */
  lemma AppliedRequestIsRefused(c: Codec, q: Request, official: Bytes)
    requires c.Sound() && Admissible(c, q, official)
    ensures !Admissible(c, q, PromotedBytes(c, q)) <==> PromotedBytes(c, q) != official
  {
  }

  /** A promotion can be the baseline of the next one: it parses, is official and keeps its strategy. */
  lemma PromotedIsOfficial(c: Codec, q: Request, official: Bytes)
    requires c.Sound() && Admissible(c, q, official)
    ensures var doc := c.parse(PromotedBytes(c, q));
            var from := c.parse(q.candidate).value;
            && doc.Some? && doc.value.ResultDoc? && doc.value.official
            && doc.value.coverage == from.coverage && doc.value.coverage.providerComplete && doc.value.coverage.eligible
            && doc.value.binding == from.binding == q.binding && doc.value.strategy == from.strategy == q.candidateStrategy
            && doc.value.metrics == from.metrics && doc.value.fingerprint == from.fingerprint && doc.value.body == from.body
            && doc.value.promotion == Some(Provenance(c.sha(q.candidate), c.sha(q.admission), c.sha(official)))
  {
  }

  /** A promoted result is the baseline of the next promotion, which must expect its strategy; after both, the
      links lead back through the first promotion to the result before it. */
  method PromoteTwice(vault: Vault, first: Request, second: Request) returns (r: Result<Digest>)
    requires vault.Safe() && first.apply && second.apply
    requires Admissible(vault.codec, first, vault.disk.official)
    requires Admissible(vault.codec, second, PromotedBytes(vault.codec, first))
    requires Undamaged(vault.codec, vault.disk, vault.disk.official)
    requires Undamaged(vault.codec, vault.disk, PromotedBytes(vault.codec, first))
    modifies vault
    ensures vault.Safe() && r.Ok? && vault.disk.official == PromotedBytes(vault.codec, second)
    ensures second.officialStrategy == first.candidateStrategy
    ensures WalkBack(vault.codec, vault.disk, 1) == Some(PromotedBytes(vault.codec, first))
    ensures WalkBack(vault.codec, vault.disk, 2) == Some(old(vault.disk.official))
  {
    hide Refused, FullyCovered, Preserved, ArchiveOnly, Follows, WalkBack;
    PromotedIsOfficial(vault.codec, first, vault.disk.official);
    var _ := vault.Promote(first, Faults(None, Completes, Completes));
    r := vault.Promote(second, Faults(None, Completes, Completes));
    WholeHistoryIsRecoverable(vault.codec, vault.disk, 1);
    WholeHistoryIsRecoverable(vault.codec, vault.disk, 2);
  }

  /** No archive entry holds other bytes under the digest of these. */
  predicate Undamaged(c: Codec, d: Disk, b: Bytes) {
    c.sha(b) in d.archive ==> d.archive[c.sha(b)] == b
  }

  datatype Try = Try(request: Request, faults: Faults, survives: Option<nat>)

  /** Any sequence of promotions, each possibly failing or dying at any state it reached: the history stays
      recoverable, the archive keeps every intact entry, and past official bytes are never forgotten or
      reordered. */
  method History(vault: Vault, tries: seq<Try>)
    requires vault.Safe()
    modifies vault
    ensures vault.Safe()
    ensures old(vault.disk.past) + [old(vault.disk.official)] <= vault.disk.past + [vault.disk.official]
    ensures Keeps(vault.codec, old(vault.disk), vault.disk)
  {
    hide Refused, Admissible, Preserved;
    for i := 0 to |tries|
      invariant vault.Safe()
      invariant old(vault.disk.past) + [old(vault.disk.official)] <= vault.disk.past + [vault.disk.official]
      invariant Keeps(vault.codec, old(vault.disk), vault.disk)
    {
      ghost var before := vault.disk;
      var start := |vault.trace|;
      var _ := vault.Promote(tries[i].request, tries[i].faults);
      if tries[i].survives.Some? {
        vault.Crash(start - 1 + Min(tries[i].survives.value, |vault.trace| - start));
      }
    }
  }

  /** A death while the archive entry is being written leaves a partial entry that blocks every later
      promotion of the same official bytes: they stay official until someone removes the entry. */
  method PartialArchiveBlocks(vault: Vault, q: Request, again: Request, faults: Faults, cut: nat) returns (r: Result<Digest>)
    requires vault.Safe() && q.apply && again.apply && Admissible(vault.codec, q, vault.disk.official)
    requires vault.codec.sha(vault.disk.official) !in vault.disk.archive && cut < |vault.disk.official|
    modifies vault
    ensures vault.Safe() && r.Raised? && vault.disk.official == old(vault.disk.official)
    ensures Wedged(vault.codec, vault.disk)
  {
    var _ := vault.Promote(q, Faults(Some(cut), Completes, Completes));
    r := vault.Promote(again, faults);
  }
}
