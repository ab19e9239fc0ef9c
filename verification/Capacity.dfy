/** Interval-union accounting of worker service time (scripts/benchmarks/capacity_001.py).
    Times are integer nanoseconds; the source's final division to milliseconds is left outside. */
module Capacity {
  import opened Outcomes

  datatype Interval = Interval(start: int, stop: int)

  // ---------------------------------------------------------------- meaning of a list of intervals

  /** The nanoseconds from `lo` up to, not including, `hi`. */
  ghost function Range(lo: int, hi: int): (r: set<int>)
    ensures forall p :: p in r <==> lo <= p < hi
    decreases hi - lo
  {
    if lo < hi then Range(lo, hi - 1) + {hi - 1} else {}
  }

  lemma RangeSize(lo: int, hi: int)
    ensures |Range(lo, hi)| == Max(0, hi - lo)
    decreases hi - lo
  {
    if lo < hi {
      RangeSize(lo, hi - 1);
    }
  }

  ghost predicate Covers(s: seq<Interval>, p: int) {
    exists i :: 0 <= i < |s| && s[i].start <= p < s[i].stop
  }

  /** The nanoseconds inside at least one interval. */
  ghost function Covered(s: seq<Interval>): (r: set<int>)
    ensures forall p :: p in r <==> Covers(s, p)
  {
    var r := set i, p | 0 <= i < |s| && p in Range(s[i].start, s[i].stop) :: p;
    assert forall p :: Covers(s, p) ==> p in r by {
      forall p | Covers(s, p) ensures p in r {
        var i :| 0 <= i < |s| && s[i].start <= p < s[i].stop;
        assert p in Range(s[i].start, s[i].stop);
      }
    }
    r
  }

  lemma CoveredNext(s: seq<Interval>, i: nat)
    requires i < |s|
    ensures Covered(s[..i + 1]) == Covered(s[..i]) + Range(s[i].start, s[i].stop)
  {
    forall p ensures Covers(s[..i + 1], p) <==> Covers(s[..i], p) || s[i].start <= p < s[i].stop {
      if Covers(s[..i], p) {
        var j :| 0 <= j < i && s[..i][j].start <= p < s[..i][j].stop;
        assert s[..i + 1][j] == s[..i][j];
      }
      if Covers(s[..i + 1], p) {
        var j :| 0 <= j < i + 1 && s[..i + 1][j].start <= p < s[..i + 1][j].stop;
        assert j == i || s[..i + 1][j] == s[..i][j];
      }
      assert s[..i + 1][i] == s[i];
    }
  }

  ghost predicate Inverted(s: seq<Interval>) {
    exists i :: 0 <= i < |s| && s[i].stop < s[i].start
  }

  // ---------------------------------------------------------------- sorted()

  predicate Before(a: Interval, b: Interval) {
    a.start < b.start || (a.start == b.start && a.stop <= b.stop)
  }

  predicate InOrder(s: seq<Interval>) {
    forall i, j :: 0 <= i < j < |s| ==> Before(s[i], s[j])
  }

  function Insert(x: Interval, s: seq<Interval>): (r: seq<Interval>)
    ensures forall y :: y in r <==> y == x || y in s
    ensures |r| == |s| + 1
  {
    if s == [] then [x]
    else if Before(x, s[0]) then [x] + s
    else [s[0]] + Insert(x, s[1..])
  }

  lemma {:induction false} InsertInOrder(x: Interval, s: seq<Interval>)
    requires InOrder(s)
    ensures InOrder(Insert(x, s))
  {
    if s == [] {
    } else if Before(x, s[0]) {
      var r := [x] + s;
      forall i, j | 0 <= i < j < |r| ensures Before(r[i], r[j]) {
        if i == 0 { assert j == 1 || Before(s[0], s[j - 1]); }
      }
    } else {
      var t := Insert(x, s[1..]);
      InsertInOrder(x, s[1..]);
      forall j | 0 <= j < |t| ensures Before(s[0], t[j]) {
        assert t[j] in t;
        if t[j] != x {
          var i :| 0 <= i < |s[1..]| && s[1..][i] == t[j];
          assert s[i + 1] == t[j];
        }
      }
    }
  }

  function Sorted(s: seq<Interval>): (r: seq<Interval>)
    ensures forall y :: y in r <==> y in s
    ensures |r| == |s|
  {
    if s == [] then [] else Insert(s[0], Sorted(s[1..]))
  }

  lemma {:induction false} SortedInOrder(s: seq<Interval>)
    ensures InOrder(Sorted(s))
  {
    if s != [] {
      SortedInOrder(s[1..]);
      InsertInOrder(s[0], Sorted(s[1..]));
    }
  }

  lemma SameElementsSameMeaning(s: seq<Interval>, t: seq<Interval>)
    requires forall x :: x in s <==> x in t
    ensures Covered(s) == Covered(t) && (Inverted(s) <==> Inverted(t))
  {
    SubsetMonotone(s, t);
    SubsetMonotone(t, s);
  }

  lemma SubsetMonotone(s: seq<Interval>, t: seq<Interval>)
    requires forall x :: x in s ==> x in t
    ensures Covered(s) <= Covered(t) && (Inverted(s) ==> Inverted(t))
  {
    forall p | Covers(s, p) ensures Covers(t, p) {
      var i :| 0 <= i < |s| && s[i].start <= p < s[i].stop;
      assert s[i] in t;
    }
    if Inverted(s) {
      var i :| 0 <= i < |s| && s[i].stop < s[i].start;
      assert s[i] in t;
    }
  }

  // ---------------------------------------------------------------- union_length

  /** `end` is the latest stop among the first `i` intervals, none of which is inverted. */
  ghost predicate RunningEnd(s: seq<Interval>, i: nat, end: Option<int>)
    requires i <= |s|
  {
    && (forall j :: 0 <= j < i ==> s[j].start <= s[j].stop)
    && (end.None? <==> i == 0)
    && (end.Some? ==>
          && (exists j :: 0 <= j < i && s[j].stop == end.value)
          && (forall j :: 0 <= j < i ==> s[j].stop <= end.value))
  }

  /** Where the next interval starts to add something new. */
  function From(x: Interval, end: Option<int>): int {
    Max(x.start, if end.Some? then end.value else x.start)
  }

  lemma RunningEndNext(s: seq<Interval>, i: nat, end: Option<int>)
    requires i < |s| && RunningEnd(s, i, end) && s[i].start <= s[i].stop
    ensures RunningEnd(s, i + 1, Some(Max(s[i].stop, if end.Some? then end.value else s[i].stop)))
  {
    if end.Some? && s[i].stop < end.value {
      var j :| 0 <= j < i && s[j].stop == end.value;
    }
  }

  /** The sweep returns the number of covered nanoseconds, and raises exactly when some
      interval is inverted. */
  method UnionLength(intervals: seq<Interval>) returns (r: Result<int>)
    ensures r.Raised? <==> exists i :: 0 <= i < |intervals| && intervals[i].stop < intervals[i].start
    ensures r.Ok? ==> r.value == |Covered(intervals)|
  {
    var ordered := Sorted(intervals);
    SortedInOrder(intervals);
    SameElementsSameMeaning(intervals, ordered);
    r := Sweep(ordered);
  }

  /** The sweep over the sorted intervals. */
  method Sweep(ordered: seq<Interval>) returns (r: Result<int>)
    requires InOrder(ordered)
    ensures r.Raised? <==> Inverted(ordered)
    ensures r.Ok? ==> r.value == |Covered(ordered)|
  {
    var end: Option<int> := None;
    var total := 0;
    assert RunningEnd(ordered, 0, end) && Covered(ordered[..0]) == {};
    hide Covered, InOrder, RunningEnd;
    for i := 0 to |ordered|
      invariant RunningEnd(ordered, i, end)
      invariant total == |Covered(ordered[..i])|
    {
      var start, stop := ordered[i].start, ordered[i].stop;
      if stop < start {
        assert Inverted(ordered);
        return Raised("invalid_capacity_interval");
      }
      SweepStep(ordered, i, end);
      RunningEndNext(ordered, i, end);
      total := total + Max(0, stop - Max(start, if end.Some? then end.value else start));
      end := Some(Max(stop, if end.Some? then end.value else stop));
    }
    assert ordered[..|ordered|] == ordered;
    r := Ok(total);
  }

  /** Past the next interval's start, the nanoseconds already covered are those before the running end. */
  lemma CoveredUpToEnd(s: seq<Interval>, i: nat, end: Option<int>, p: int)
    requires InOrder(s) && i < |s| && RunningEnd(s, i, end) && s[i].start <= p
    ensures Covers(s[..i], p) <==> end.Some? && p < end.value
  {
    if Covers(s[..i], p) {
      var j :| 0 <= j < i && s[..i][j].start <= p < s[..i][j].stop;
      assert s[j] == s[..i][j];
    }
    if end.Some? && p < end.value {
      var j :| 0 <= j < i && s[j].stop == end.value;
      assert Before(s[j], s[i]);
      assert s[..i][j].start <= p < s[..i][j].stop;
    }
  }

  /** The nanoseconds the next interval adds: those past the running end. */
  lemma AddsPastEnd(s: seq<Interval>, i: nat, end: Option<int>)
    requires InOrder(s) && i < |s| && RunningEnd(s, i, end)
    ensures Covered(s[..i + 1]) == Covered(s[..i]) + Range(From(s[i], end), s[i].stop)
    ensures Covered(s[..i]) !! Range(From(s[i], end), s[i].stop)
  {
    CoveredNext(s, i);
    forall p | s[i].start <= p ensures p in Covered(s[..i]) <==> p < From(s[i], end) {
      CoveredUpToEnd(s, i, end, p);
    }
  }

  lemma SweepStep(s: seq<Interval>, i: nat, end: Option<int>)
    requires InOrder(s) && i < |s| && s[i].start <= s[i].stop && RunningEnd(s, i, end)
    ensures |Covered(s[..i + 1])| == |Covered(s[..i])| + Max(0, s[i].stop - From(s[i], end))
  {
    AddsPastEnd(s, i, end);
    RangeSize(From(s[i], end), s[i].stop);
  }

  /** The figure depends on which intervals are listed, not on their order or repetition. */
  lemma MeasureIgnoresOrder(s: seq<Interval>, t: seq<Interval>)
    requires forall x :: x in s <==> x in t
    ensures |Covered(s)| == |Covered(t)|
  {
    SameElementsSameMeaning(s, t);
  }

  lemma ConcatCovers(s: seq<Interval>, t: seq<Interval>)
    ensures Covered(s + t) == Covered(s) + Covered(t)
    ensures Inverted(s + t) <==> Inverted(s) || Inverted(t)
  {
    SubsetMonotone(s, s + t);
    SubsetMonotone(t, s + t);
    forall p | Covers(s + t, p) ensures Covers(s, p) || Covers(t, p) {
      var i :| 0 <= i < |s + t| && (s + t)[i].start <= p < (s + t)[i].stop;
      if i >= |s| { assert t[i - |s|] == (s + t)[i]; }
    }
    if Inverted(s + t) {
      var i :| 0 <= i < |s + t| && (s + t)[i].stop < (s + t)[i].start;
      if i >= |s| { assert t[i - |s|] == (s + t)[i]; }
    }
  }

  /** Adding intervals never lowers the figure and never adds more than their own figure. */
  lemma MeasureMonotoneSubadditive(s: seq<Interval>, t: seq<Interval>)
    ensures |Covered(s)| <= |Covered(s + t)| <= |Covered(s)| + |Covered(t)|
  {
    ConcatCovers(s, t);
    SubsetSize(Covered(s), Covered(s + t));
  }

  lemma SubsetSize<T>(a: set<T>, b: set<T>)
    requires a <= b
    ensures |a| <= |b| && |b - a| == |b| - |a|
  {
    assert b == a + (b - a);
  }

  // ---------------------------------------------------------------- occupancy

  /** The phases the accounting looks at; every other recorded phase is `Other`. */
  datatype Phase =
    | WorkerService | AgentDecision | AgentProvider | GeneratorTransport | AgentPersistResult
    | ToolSearchDocuments | ToolInspectRetrieval | ToolReadDocument | ToolAskRag
    | WorkspaceRead | WorkspaceCriticalSection | WorkspaceSerializedWait
    | WorkspaceConnectionOpen | WorkspaceTransaction | WorkspaceInitialize
    | Other(name: string)

  /** A recorded span; the recording model rejects a span that ends before it starts. */
  datatype RawSpan = Span(phase: Phase, startNs: nat, endNs: nat)
  type TimingSpan = s: RawSpan | s.startNs <= s.endNs witness Span(WorkerService, 0, 0)

  datatype Trace = Trace(dropped: nat, records: seq<TimingSpan>)

  datatype GroupName = Provider | Tools | Persistence | Workspace

  datatype Group = Group(name: GroupName, phases: set<Phase>)

  /** The reported figures: the service time, its exclusive partition, and the inclusive phases. */
  datatype Figures = Figures(service: int, exclusive: map<GroupName, int>, unattributed: int, inclusive: map<Phase, int>)

  const TOOLS: set<Phase> := {ToolSearchDocuments, ToolInspectRetrieval, ToolReadDocument, ToolAskRag}

  /** The exclusive groups in priority order. */
  const GROUPS: seq<Group> := [
    Group(Provider, {AgentProvider, GeneratorTransport}),
    Group(Tools, TOOLS),
    Group(Persistence, {AgentPersistResult}),
    Group(Workspace, {WorkspaceRead, WorkspaceCriticalSection, WorkspaceSerializedWait,
                      WorkspaceConnectionOpen, WorkspaceTransaction, WorkspaceInitialize})
  ]

  /** The phases that are also reported inclusively. */
  const INCLUSIVE: seq<Phase> := [
    AgentDecision, AgentProvider, AgentPersistResult,
    ToolSearchDocuments, ToolInspectRetrieval, ToolReadDocument, ToolAskRag
  ]

  function Roots(records: seq<TimingSpan>): (r: seq<TimingSpan>) {
    if records == [] then []
    else (if records[0].phase == WorkerService then [records[0]] else []) + Roots(records[1..])
  }

  /** The spans of some phases that meet the root, cut to the root. */
  function Clipped(root: TimingSpan, records: seq<TimingSpan>, phases: set<Phase>): (r: seq<Interval>) {
    if records == [] then []
    else
      (if Meets(root, records[0], phases) then [Clip(root, records[0])] else []) + Clipped(root, records[1..], phases)
  }

  /** Some record of these phases was running at nanosecond `p`. */
  ghost predicate Running(records: seq<TimingSpan>, phases: set<Phase>, p: int) {
    exists i :: 0 <= i < |records| && records[i].phase in phases && records[i].startNs <= p < records[i].endNs
  }

  /** Independent reference: which group nanosecond `p` is charged to - the first one, from `k` on,
      that was running - or |groups| when none was. */
  ghost function Owner(groups: seq<Group>, records: seq<TimingSpan>, p: int, k: nat): (owner: nat)
    requires k <= |groups|
    ensures k <= owner <= |groups|
    ensures forall j :: k <= j < owner ==> !Running(records, groups[j].phases, p)
    ensures owner < |groups| ==> Running(records, groups[owner].phases, p)
    decreases |groups| - k
  {
    if k == |groups| || Running(records, groups[k].phases, p) then k else Owner(groups, records, p, k + 1)
  }

  /** The nanoseconds of the root charged to group `k`; |groups| stands for "unattributed". */
  ghost function Charged(groups: seq<Group>, root: TimingSpan, records: seq<TimingSpan>, k: nat): set<int> {
    set p | p in Range(root.startNs, root.endNs) && Owner(groups, records, p, 0) == k
  }

  ghost function Active(root: TimingSpan, records: seq<TimingSpan>, phases: set<Phase>): set<int> {
    set p | p in Range(root.startNs, root.endNs) && Running(records, phases, p)
  }

  predicate Meets(root: TimingSpan, s: TimingSpan, phases: set<Phase>) {
    s.phase in phases && s.endNs > root.startNs && s.startNs < root.endNs
  }

  function Clip(root: TimingSpan, s: TimingSpan): Interval {
    Interval(Max(root.startNs, s.startNs), Min(root.endNs, s.endNs))
  }

  lemma ClippedFrom(root: TimingSpan, records: seq<TimingSpan>, phases: set<Phase>, x: Interval)
    ensures x in Clipped(root, records, phases) <==>
            exists i :: 0 <= i < |records| && Meets(root, records[i], phases) && x == Clip(root, records[i])
  {
    if records != [] {
      ClippedFrom(root, records[1..], phases, x);
      if x in Clipped(root, records[1..], phases) {
        var i :| 0 <= i < |records[1..]| && Meets(root, records[1..][i], phases) && x == Clip(root, records[1..][i]);
        assert records[i + 1] == records[1..][i];
      }
      if exists i :: 0 <= i < |records| && Meets(root, records[i], phases) && x == Clip(root, records[i]) {
        var i :| 0 <= i < |records| && Meets(root, records[i], phases) && x == Clip(root, records[i]);
        assert i == 0 || records[1..][i - 1] == records[i];
      }
    }
  }

  /** Clipping never inverts an interval, and the clipped spans cover exactly the nanoseconds of
      the root at which one of the phases was running. */
  lemma ClippedCovers(root: TimingSpan, records: seq<TimingSpan>, phases: set<Phase>)
    ensures !Inverted(Clipped(root, records, phases))
    ensures Covered(Clipped(root, records, phases)) == Active(root, records, phases)
  {
    var c := Clipped(root, records, phases);
    forall i | 0 <= i < |c| ensures c[i].start <= c[i].stop {
      ClippedFrom(root, records, phases, c[i]);
    }
    forall p ensures Covers(c, p) <==> p in Active(root, records, phases) {
      if Covers(c, p) {
        var i :| 0 <= i < |c| && c[i].start <= p < c[i].stop;
        ClippedFrom(root, records, phases, c[i]);
      }
      if p in Active(root, records, phases) {
        var i :| 0 <= i < |records| && records[i].phase in phases && records[i].startNs <= p < records[i].endNs;
        ClippedFrom(root, records, phases, Clip(root, records[i]));
      }
    }
  }

  /** Everything charged to the first `k` groups. */
  ghost function ChargedBelow(groups: seq<Group>, root: TimingSpan, records: seq<TimingSpan>, k: nat): set<int> {
    set p | p in Range(root.startNs, root.endNs) && Owner(groups, records, p, 0) < k
  }

  /** Extending the used spans by group `k` adds exactly what group `k` is charged for. */
  lemma GroupStep(groups: seq<Group>, root: TimingSpan, records: seq<TimingSpan>, k: nat, used: seq<Interval>)
    requires k < |groups| && !Inverted(used) && Covered(used) == ChargedBelow(groups, root, records, k)
    ensures var spans := Clipped(root, records, groups[k].phases);
            !Inverted(used + spans)
            && Covered(used + spans) == ChargedBelow(groups, root, records, k + 1)
            && |Covered(used + spans)| - |Covered(used)| == |Charged(groups, root, records, k)|
  {
    var spans := Clipped(root, records, groups[k].phases);
    ClippedCovers(root, records, groups[k].phases);
    ConcatCovers(used, spans);
    forall p | p in Range(root.startNs, root.endNs)
      ensures Owner(groups, records, p, 0) < k + 1 <==> Owner(groups, records, p, 0) < k || Running(records, groups[k].phases, p)
    {
      assert Owner(groups, records, p, 0) > k ==> !Running(records, groups[k].phases, p);
    }
    assert ChargedBelow(groups, root, records, k + 1) == ChargedBelow(groups, root, records, k) + Active(root, records, groups[k].phases);
    assert ChargedBelow(groups, root, records, k + 1) - ChargedBelow(groups, root, records, k) == Charged(groups, root, records, k);
    SubsetSize(ChargedBelow(groups, root, records, k), ChargedBelow(groups, root, records, k + 1));
  }

  lemma Remainder(groups: seq<Group>, root: TimingSpan, records: seq<TimingSpan>)
    ensures root.endNs - root.startNs - |ChargedBelow(groups, root, records, |groups|)| == |Charged(groups, root, records, |groups|)|
  {
    var all := Range(root.startNs, root.endNs);
    RangeSize(root.startNs, root.endNs);
    assert all - ChargedBelow(groups, root, records, |groups|) == Charged(groups, root, records, |groups|);
    SubsetSize(ChargedBelow(groups, root, records, |groups|), all);
  }

  /** The figures of the exclusive groups and what no group accounts for. Every nanosecond of the
      root lands in exactly one figure; the source's guard against a negative remainder never fires. */
  method ExclusiveFigures(groups: seq<Group>, root: TimingSpan, records: seq<TimingSpan>)
    returns (result: map<GroupName, int>, unattributed: int)
    requires forall i, j :: 0 <= i < j < |groups| ==> groups[i].name != groups[j].name
    ensures forall f :: f in result <==> exists k :: 0 <= k < |groups| && groups[k].name == f
    ensures forall k :: 0 <= k < |groups| ==> result[groups[k].name] == |Charged(groups, root, records, k)|
    ensures unattributed == |Charged(groups, root, records, |groups|)|
    ensures SumOf(groups, result) + unattributed == root.endNs - root.startNs
  {
    result := map[];
    var used: seq<Interval> := [];
    assert ChargedBelow(groups, root, records, 0) == {} == Covered(used);
    for k := 0 to |groups|
      invariant !Inverted(used) && Covered(used) == ChargedBelow(groups, root, records, k)
      invariant forall f :: f in result <==> exists j :: 0 <= j < k && groups[j].name == f
      invariant forall j :: 0 <= j < k ==> result[groups[j].name] == |Charged(groups, root, records, j)|
    {
      var figure;
      figure, used := Charge(groups, root, records, k, used);
      result := result[groups[k].name := figure];
    }
    var attributed := UnionLength(used);
    Remainder(groups, root, records);
    unattributed := root.endNs - root.startNs - attributed.value;
    PartitionIsExact(groups, root, records);
    FiguresAreCharges(groups, root, records, result);
  }

  /** One group: what its spans add to those of the groups before it. */
  method Charge(groups: seq<Group>, root: TimingSpan, records: seq<TimingSpan>, k: nat, used: seq<Interval>)
    returns (figure: int, more: seq<Interval>)
    requires k < |groups| && !Inverted(used) && Covered(used) == ChargedBelow(groups, root, records, k)
    ensures figure == |Charged(groups, root, records, k)|
    ensures !Inverted(more) && Covered(more) == ChargedBelow(groups, root, records, k + 1)
  {
    var spans := Clipped(root, records, groups[k].phases);
    GroupStep(groups, root, records, k, used);
    var with_ := UnionLength(used + spans);
    var without := UnionLength(used);
    figure, more := with_.value - without.value, used + spans;
  }

  /** The figures of these groups, added up. */
  function SumOf(groups: seq<Group>, figures: map<GroupName, int>): int
    requires forall k :: 0 <= k < |groups| ==> groups[k].name in figures
  {
    if groups == [] then 0 else SumOf(groups[..|groups| - 1], figures) + figures[groups[|groups| - 1].name]
  }

  lemma FiguresAreCharges(groups: seq<Group>, root: TimingSpan, records: seq<TimingSpan>, figures: map<GroupName, int>)
    requires forall k :: 0 <= k < |groups| ==> groups[k].name in figures
    requires forall k :: 0 <= k < |groups| ==> figures[groups[k].name] == |Charged(groups, root, records, k)|
    ensures SumOf(groups, figures) + |Charged(groups, root, records, |groups|)| == ChargedSum(groups, root, records, |groups|)
  {
    PartOfSum(groups, root, records, figures, |groups|);
    assert groups[..|groups|] == groups;
  }

  lemma {:induction false} PartOfSum(groups: seq<Group>, root: TimingSpan, records: seq<TimingSpan>, figures: map<GroupName, int>, n: nat)
    requires n <= |groups|
    requires forall k :: 0 <= k < |groups| ==> groups[k].name in figures
    requires forall k :: 0 <= k < |groups| ==> figures[groups[k].name] == |Charged(groups, root, records, k)|
    ensures SumOf(groups[..n], figures) + |Charged(groups, root, records, n)| == ChargedSum(groups, root, records, n)
  {
    if n > 0 {
      PartOfSum(groups, root, records, figures, n - 1);
      assert groups[..n][..n - 1] == groups[..n - 1];
    }
  }

  method InclusiveFigures(phases: seq<Phase>, root: TimingSpan, records: seq<TimingSpan>)
    returns (result: map<Phase, int>)
    ensures forall phase :: phase in result <==> phase in phases
    ensures forall phase :: phase in result ==> result[phase] == |Active(root, records, {phase})|
  {
    result := map[];
    for i := 0 to |phases|
      invariant forall phase :: phase in result <==> phase in phases[..i]
      invariant forall phase :: phase in result ==> result[phase] == |Active(root, records, {phase})|
    {
      var spans := Clipped(root, records, {phases[i]});
      ClippedCovers(root, records, {phases[i]});
      var measure := UnionLength(spans);
      result := result[phases[i] := measure.value];
    }
  }

  /** The only record of a whole service, at index i. */
  ghost predicate OnlyRoot(records: seq<TimingSpan>, i: int) {
    0 <= i < |records| && records[i].phase == WorkerService
    && forall j :: 0 <= j < |records| && j != i ==> records[j].phase != WorkerService
  }

  /** What the report says about a root: the provider is charged whenever it was running, the tools whenever one was
      and the provider was not, then persistence, then the workspace, and the rest is unattributed. */
  ghost predicate Accounts(f: Figures, root: TimingSpan, records: seq<TimingSpan>) {
    var provider := Active(root, records, {AgentProvider, GeneratorTransport});
    var tools := Active(root, records, {ToolSearchDocuments, ToolInspectRetrieval, ToolReadDocument, ToolAskRag});
    var persistence := Active(root, records, {AgentPersistResult});
    var workspace := Active(root, records, {WorkspaceRead, WorkspaceCriticalSection, WorkspaceSerializedWait,
                                            WorkspaceConnectionOpen, WorkspaceTransaction, WorkspaceInitialize});
    && f.service == root.endNs - root.startNs
    && f.exclusive.Keys == {Provider, Tools, Persistence, Workspace}
    && f.exclusive[Provider] == |provider|
    && f.exclusive[Tools] == |tools - provider|
    && f.exclusive[Persistence] == |persistence - tools - provider|
    && f.exclusive[Workspace] == |workspace - persistence - tools - provider|
    && f.unattributed == |Range(root.startNs, root.endNs) - workspace - persistence - tools - provider|
    && f.exclusive[Provider] + f.exclusive[Tools] + f.exclusive[Persistence] + f.exclusive[Workspace] + f.unattributed == f.service
    && f.inclusive.Keys == {AgentDecision, AgentProvider, AgentPersistResult,
                            ToolSearchDocuments, ToolInspectRetrieval, ToolReadDocument, ToolAskRag}
    && forall phase :: phase in f.inclusive ==> f.inclusive[phase] == |Active(root, records, {phase})|
  }

  /** The reported figures. A report is made exactly when no record was dropped and there is one root, and it is
      about that root; the two other failures the code guards against cannot occur. */
  method Occupancy(trace: Trace) returns (r: Result<Figures>)
    ensures r.Ok? <==> trace.dropped == 0 && exists i :: OnlyRoot(trace.records, i)
    ensures r.Ok? ==> forall i :: OnlyRoot(trace.records, i) ==> Accounts(r.value, trace.records[i], trace.records)
  {
    var roots := Roots(trace.records);
    RootsExact(trace.records);
    if trace.dropped != 0 || |roots| != 1 {
      return Raised("incomplete_capacity_trace");
    }
    var root := roots[0];
    DistinctNames();
    var exclusive, unattributed := ExclusiveFigures(GROUPS, root, trace.records);
    if unattributed < 0 {
      return Raised("capacity_partition_outside_service");
    }
    SumOfFour(exclusive);
    var inclusive := InclusiveFigures(INCLUSIVE, root, trace.records);
    r := Ok(Figures(root.endNs - root.startNs, exclusive, Max(0, unattributed), inclusive));
    GroupPhases();
    FiguresAccount(r.value, root, trace.records);
  }

  lemma FiguresAccount(f: Figures, root: TimingSpan, records: seq<TimingSpan>)
    requires f.service == root.endNs - root.startNs && f.exclusive.Keys == {Provider, Tools, Persistence, Workspace}
    requires |GROUPS| == 4 && f.exclusive[Provider] == |Charged(GROUPS, root, records, 0)|
    requires f.exclusive[Tools] == |Charged(GROUPS, root, records, 1)|
    requires f.exclusive[Persistence] == |Charged(GROUPS, root, records, 2)|
    requires f.exclusive[Workspace] == |Charged(GROUPS, root, records, 3)|
    requires f.unattributed == |Charged(GROUPS, root, records, 4)|
    requires f.exclusive[Provider] + f.exclusive[Tools] + f.exclusive[Persistence] + f.exclusive[Workspace] + f.unattributed == f.service
    requires f.inclusive.Keys == set phase | phase in INCLUSIVE
    requires forall phase :: phase in f.inclusive ==> f.inclusive[phase] == |Active(root, records, {phase})|
    ensures Accounts(f, root, records)
  {
    hide Active, Charged, Owner, Range;
    ChargesMean(root, records);
    GroupPhases();
    InclusivePhases();
  }

  /** There is one root exactly when one record is the only one of its phase, and then it is that record. */
  lemma {:induction false} RootsExact(records: seq<TimingSpan>)
    ensures Roots(records) == [] <==> forall i :: 0 <= i < |records| ==> records[i].phase != WorkerService
    ensures |Roots(records)| == 1 <==> exists i :: OnlyRoot(records, i)
    ensures forall i :: OnlyRoot(records, i) ==> Roots(records) == [records[i]]
  {
    if records != [] {
      var rest := records[1..];
      RootsExact(rest);
      assert forall i :: 0 <= i < |rest| ==> rest[i] == records[i + 1];
      if records[0].phase == WorkerService {
        assert Roots(rest) == [] ==> OnlyRoot(records, 0);
      } else {
        forall i | OnlyRoot(rest, i) ensures OnlyRoot(records, i + 1) {
          assert forall j :: 0 < j < |records| ==> records[j] == rest[j - 1];
        }
        forall i | OnlyRoot(records, i) ensures OnlyRoot(rest, i - 1) && rest[i - 1] == records[i] {
        }
      }
    }
  }

  /** What the groups and the rest are charged for: whatever ran, less what ran before it in priority order. */
  lemma ChargesMean(root: TimingSpan, records: seq<TimingSpan>)
    ensures |GROUPS| == 4
    ensures var a, b := Active(root, records, GROUPS[0].phases), Active(root, records, GROUPS[1].phases);
            var c, d := Active(root, records, GROUPS[2].phases), Active(root, records, GROUPS[3].phases);
            && Charged(GROUPS, root, records, 0) == a
            && Charged(GROUPS, root, records, 1) == b - a
            && Charged(GROUPS, root, records, 2) == c - b - a
            && Charged(GROUPS, root, records, 3) == d - c - b - a
            && Charged(GROUPS, root, records, 4) == Range(root.startNs, root.endNs) - d - c - b - a
  {
    forall p, k: nat | k <= 4
      ensures Owner(GROUPS, records, p, 0) == k <==>
                (k < 4 ==> Running(records, GROUPS[k].phases, p)) && forall j :: 0 <= j < k ==> !Running(records, GROUPS[j].phases, p)
    {
    }
  }

  lemma GroupPhases()
    ensures GROUPS[0] == Group(Provider, {AgentProvider, GeneratorTransport})
    ensures GROUPS[1] == Group(Tools, {ToolSearchDocuments, ToolInspectRetrieval, ToolReadDocument, ToolAskRag})
    ensures GROUPS[2] == Group(Persistence, {AgentPersistResult})
    ensures GROUPS[3] == Group(Workspace, {WorkspaceRead, WorkspaceCriticalSection, WorkspaceSerializedWait,
                                           WorkspaceConnectionOpen, WorkspaceTransaction, WorkspaceInitialize})
  {
  }

  lemma InclusivePhases()
    ensures forall phase :: phase in INCLUSIVE <==>
              phase in {AgentDecision, AgentProvider, AgentPersistResult,
                        ToolSearchDocuments, ToolInspectRetrieval, ToolReadDocument, ToolAskRag}
  {
    assert INCLUSIVE[0] == AgentDecision && INCLUSIVE[1] == AgentProvider && INCLUSIVE[2] == AgentPersistResult;
    assert INCLUSIVE[3] == ToolSearchDocuments && INCLUSIVE[4] == ToolInspectRetrieval;
    assert INCLUSIVE[5] == ToolReadDocument && INCLUSIVE[6] == ToolAskRag && |INCLUSIVE| == 7;
  }

  lemma SumOfFour(figures: map<GroupName, int>)
    requires forall f :: f in figures <==> exists k :: 0 <= k < |GROUPS| && GROUPS[k].name == f
    ensures figures.Keys == {Provider, Tools, Persistence, Workspace}
    ensures SumOf(GROUPS, figures) == figures[Provider] + figures[Tools] + figures[Persistence] + figures[Workspace]
  {
    assert GROUPS[0].name == Provider && GROUPS[1].name == Tools && GROUPS[2].name == Persistence && GROUPS[3].name == Workspace;
    assert GROUPS[..3][..2] == GROUPS[..2] && GROUPS[..2][..1] == GROUPS[..1] && GROUPS[..1][..0] == [];
    assert SumOf(GROUPS[..1], figures) == figures[Provider];
    assert SumOf(GROUPS[..2], figures) == figures[Provider] + figures[Tools];
    assert SumOf(GROUPS[..3], figures) == figures[Provider] + figures[Tools] + figures[Persistence];
  }

  lemma DistinctNames()
    ensures forall i, j :: 0 <= i < j < |GROUPS| ==> GROUPS[i].name != GROUPS[j].name
  {
  }

  /** The size of everything charged from group `k` on, the unattributed rest included. */
  ghost function ChargedSum(groups: seq<Group>, root: TimingSpan, records: seq<TimingSpan>, k: nat): int
    requires k <= |groups|
  {
    |Charged(groups, root, records, k)| + if k == 0 then 0 else ChargedSum(groups, root, records, k - 1)
  }

  /** The exclusive figures and the remainder add up to the service time, nanosecond for nanosecond. */
  lemma PartitionIsExact(groups: seq<Group>, root: TimingSpan, records: seq<TimingSpan>)
    ensures ChargedSum(groups, root, records, |groups|) == root.endNs - root.startNs
  {
    PartialSum(groups, root, records, |groups|);
    assert ChargedBelow(groups, root, records, |groups| + 1) == Range(root.startNs, root.endNs);
    RangeSize(root.startNs, root.endNs);
  }

  lemma BelowNext(groups: seq<Group>, root: TimingSpan, records: seq<TimingSpan>, k: nat)
    requires k <= |groups|
    ensures |ChargedBelow(groups, root, records, k + 1)|
            == |ChargedBelow(groups, root, records, k)| + |Charged(groups, root, records, k)|
  {
    var a, b := ChargedBelow(groups, root, records, k), Charged(groups, root, records, k);
    assert ChargedBelow(groups, root, records, k + 1) == a + b;
    assert a !! b;
  }

  lemma {:induction false} PartialSum(groups: seq<Group>, root: TimingSpan, records: seq<TimingSpan>, k: nat)
    requires k <= |groups|
    ensures ChargedSum(groups, root, records, k) == |ChargedBelow(groups, root, records, k + 1)|
  {
    BelowNext(groups, root, records, k);
    if k == 0 {
      assert ChargedBelow(groups, root, records, 0) == {};
    } else {
      PartialSum(groups, root, records, k - 1);
    }
  }

  /** Priority: recording more spans of lower-priority phases cannot change what a group is charged. */
  lemma LowerPriorityCannotInterfere(groups: seq<Group>, root: TimingSpan, records: seq<TimingSpan>, extra: seq<TimingSpan>, k: nat)
    requires k < |groups|
    requires forall i, j :: 0 <= i < |extra| && 0 <= j <= k ==> extra[i].phase !in groups[j].phases
    ensures Charged(groups, root, records + extra, k) == Charged(groups, root, records, k)
  {
    forall p, j | 0 <= j <= k
      ensures Running(records + extra, groups[j].phases, p) <==> Running(records, groups[j].phases, p)
    {
      if Running(records, groups[j].phases, p) {
        var i :| 0 <= i < |records| && records[i].phase in groups[j].phases && records[i].startNs <= p < records[i].endNs;
        assert (records + extra)[i] == records[i];
      }
    }
    forall p ensures Owner(groups, records + extra, p, 0) == k <==> Owner(groups, records, p, 0) == k {
      var a, b := Owner(groups, records + extra, p, 0), Owner(groups, records, p, 0);
      if a == k { assert !(b < k) && !(b > k); }
      if b == k { assert !(a < k) && !(a > k); }
    }
  }
}
