/** Judge averages and the category table (scripts/run_evaluation_phase2.py, aggregate_scores). Scores are
    exact rationals here; the source's floating point enters only as rounding to four decimals. */
module Scores {
  import opened Outcomes

  type Category = string

  /** The three judge scores; None is a score that is missing or not a number. */
  datatype Key = Faithfulness | AnswerRelevancy | ContextPrecision

  datatype Record = Record(ok: bool, category: Category, faithfulness: Option<real>, answerRelevancy: Option<real>,
                           contextPrecision: Option<real>)
  {
    function Score(k: Key): Option<real> {
      match k case Faithfulness => faithfulness case AnswerRelevancy => answerRelevancy case ContextPrecision => contextPrecision
    }
  }

  // ---------------------------------------------------------------- rounding

  /** The nearest integer, ties to even. */
  function RoundHalfEven(x: real): (n: int)
    ensures Nearest(n, x)
  {
    var f := x.Floor;
    var d := x - f as real;
    if d < 0.5 || (d == 0.5 && f % 2 == 0) then f else f + 1
  }

  /** No integer is nearer, and of two equally near ones it is the even one. */
  predicate Nearest(n: int, x: real) {
    n as real - 0.5 <= x <= n as real + 0.5 && (x == n as real - 0.5 || x == n as real + 0.5 ==> n % 2 == 0)
  }

  /** A multiple of a ten-thousandth, none is nearer, and of two equally near ones it is the even one. */
  ghost predicate RoundsTo(x: real, r: real) { IsNearest(x * 10000.0, r * 10000.0) }

  ghost predicate IsNearest(x: real, r: real) { exists n: int :: Nearest(n, x) && n as real == r }

  function Round4(x: real): (r: real)
    ensures x - 0.00005 <= r <= x + 0.00005
  {
    RoundHalfEven(x * 10000.0) as real / 10000.0
  }

  lemma Round4Rounds(x: real)
    ensures RoundsTo(x, Round4(x))
  {
    var n := RoundHalfEven(x * 10000.0);
    assert Nearest(n, x * 10000.0) && n as real == Round4(x) * 10000.0;
  }

  // ---------------------------------------------------------------- means

  function Numbers(records: seq<Record>, k: Key): seq<real> {
    if records == [] then []
    else Numbers(records[..|records| - 1], k)
         + (if records[|records| - 1].Score(k).Some? then [records[|records| - 1].Score(k).value] else [])
  }

  function Sum(s: seq<real>): real {
    if s == [] then 0.0 else Sum(s[..|s| - 1]) + s[|s| - 1]
  }

  function Mean(s: seq<real>): Option<real> {
    if s == [] then None else Some(Round4(Sum(s) / |s| as real))
  }

  /** A total spread over its count. */
  function Average(total: real, n: nat): real { if n == 0 then 0.0 else total / n as real }

  lemma MeanRounds(s: seq<real>)
    ensures Mean(s).Some? <==> s != []
    ensures s != [] ==> RoundsTo(Average(Sum(s), |s|), Mean(s).value)
  {
    if s != [] { Round4Rounds(Sum(s) / |s| as real); }
  }

  function OkOnly(records: seq<Record>): seq<Record> {
    if records == [] then []
    else OkOnly(records[..|records| - 1]) + (if records[|records| - 1].ok then [records[|records| - 1]] else [])
  }

  function Of(records: seq<Record>, c: Category): seq<Record> {
    if records == [] then []
    else Of(records[..|records| - 1], c) + (if records[|records| - 1].category == c then [records[|records| - 1]] else [])
  }

  datatype Entry = Entry(numCases: nat, means: map<Key, Option<real>>)

  datatype Table = Table(numJudgedOk: nat, metrics: map<Key, Option<real>>, overall: Option<real>, categories: map<Category, Entry>)

  function Means(records: seq<Record>): (m: map<Key, Option<real>>)
    ensures m.Keys == {Faithfulness, AnswerRelevancy, ContextPrecision}
  {
    map[Faithfulness := Mean(Numbers(records, Faithfulness)),
        AnswerRelevancy := Mean(Numbers(records, AnswerRelevancy)),
        ContextPrecision := Mean(Numbers(records, ContextPrecision))]
  }

  function Overall(m: map<Key, Option<real>>): Option<real>
    requires m.Keys == {Faithfulness, AnswerRelevancy, ContextPrecision}
  {
    if m[Faithfulness].Some? && m[AnswerRelevancy].Some? && m[ContextPrecision].Some?
    then Some(Round4((m[Faithfulness].value + m[AnswerRelevancy].value + m[ContextPrecision].value) / 3.0))
    else None
  }

  // ---------------------------------------------------------------- what the figures are about

  /** All OK records, or those of one category. */
  predicate InScope(r: Record, scope: Option<Category>) { r.ok && (scope.Some? ==> r.category == scope.value) }

  ghost function Tally(records: seq<Record>, scope: Option<Category>): nat {
    if records == [] then 0
    else Tally(records[..|records| - 1], scope) + if InScope(records[|records| - 1], scope) then 1 else 0
  }

  /** How many records in scope have a number for the score, and what the numbers add up to. */
  ghost function Scored(records: seq<Record>, scope: Option<Category>, k: Key): nat {
    if records == [] then 0
    else Scored(records[..|records| - 1], scope, k) + if InScope(records[|records| - 1], scope) && records[|records| - 1].Score(k).Some? then 1 else 0
  }

  ghost function Points(records: seq<Record>, scope: Option<Category>, k: Key): real {
    if records == [] then 0.0
    else
      var last := records[|records| - 1];
      Points(records[..|records| - 1], scope, k) + if InScope(last, scope) && last.Score(k).Some? then last.Score(k).value else 0.0
  }

  /** Of each score the mean over the numbers in scope, to four decimals, or nothing when there is none. */
  ghost predicate AreMeans(means: map<Key, Option<real>>, records: seq<Record>, scope: Option<Category>) {
    means.Keys == {Faithfulness, AnswerRelevancy, ContextPrecision}
    && forall k :: k in means ==>
         if Scored(records, scope, k) == 0 then means[k].None?
         else means[k].Some? && RoundsTo(Average(Points(records, scope, k), Scored(records, scope, k)), means[k].value)
  }

  /** The whole table, from the records alone. */
  ghost predicate Reports(t: Table, records: seq<Record>) {
    && t.numJudgedOk == Tally(records, None) && AreMeans(t.metrics, records, None)
    && (t.overall.Some? <==> forall k :: k in t.metrics ==> t.metrics[k].Some?)
    && (t.overall.Some? ==>
          RoundsTo((t.metrics[Faithfulness].value + t.metrics[AnswerRelevancy].value + t.metrics[ContextPrecision].value) / 3.0,
                   t.overall.value))
    && (forall c :: c in t.categories <==> exists i :: 0 <= i < |records| && records[i].ok && records[i].category == c)
    && forall c :: c in t.categories ==>
         t.categories[c].numCases == Tally(records, Some(c)) && AreMeans(t.categories[c].means, records, Some(c))
  }

  /** The records in scope, as the code selects them. */
  function Chosen(records: seq<Record>, scope: Option<Category>): seq<Record> {
    if scope.None? then OkOnly(records) else Of(OkOnly(records), scope.value)
  }

  lemma ChosenNext(front: seq<Record>, last: Record, scope: Option<Category>)
    ensures Chosen(front + [last], scope) == if InScope(last, scope) then Chosen(front, scope) + [last] else Chosen(front, scope)
  {
    OkNext(front, last);
    if scope.Some? && last.ok {
      OfNext(OkOnly(front), last, scope.value);
    }
  }

  lemma OkNext(front: seq<Record>, last: Record)
    ensures OkOnly(front + [last]) == if last.ok then OkOnly(front) + [last] else OkOnly(front)
  {
    var all := front + [last];
    assert all[..|all| - 1] == front && all[|all| - 1] == last;
  }

  lemma NumbersNext(front: seq<Record>, last: Record, k: Key)
    ensures Numbers(front + [last], k) == if last.Score(k).Some? then Numbers(front, k) + [last.Score(k).value] else Numbers(front, k)
  {
    var all := front + [last];
    assert all[..|all| - 1] == front && all[|all| - 1] == last;
  }

  lemma SumNext(s: seq<real>, x: real)
    ensures Sum(s + [x]) == Sum(s) + x
  {
    assert (s + [x])[..|s|] == s;
  }

  /** One more record adds its score to the numbers of a scope that it is in. */
  lemma ChosenNumbersNext(front: seq<Record>, last: Record, scope: Option<Category>, k: Key)
    ensures Numbers(Chosen(front + [last], scope), k) == Numbers(Chosen(front, scope), k)
              + if InScope(last, scope) && last.Score(k).Some? then [last.Score(k).value] else []
  {
    hide Chosen, Numbers, InScope;
    ChosenNext(front, last, scope);
    NumbersNext(Chosen(front, scope), last, k);
  }

  lemma NoneChosen(scope: Option<Category>, k: Key)
    ensures Chosen([], scope) == [] && Numbers([], k) == [] && Sum([]) == 0.0
  {
  }

  lemma {:induction false} ChosenExact(records: seq<Record>, scope: Option<Category>, k: Key)
    ensures |Chosen(records, scope)| == Tally(records, scope)
    ensures |Numbers(Chosen(records, scope), k)| == Scored(records, scope, k)
    ensures Sum(Numbers(Chosen(records, scope), k)) == Points(records, scope, k)
  {
    hide Chosen, Numbers, Sum, InScope;
    if records != [] {
      var front, last := records[..|records| - 1], records[|records| - 1];
      assert records == front + [last];
      ChosenExact(front, scope, k);
      ChosenNext(front, last, scope);
      ChosenNumbersNext(front, last, scope, k);
      var numbers := Numbers(Chosen(front, scope), k);
      if InScope(last, scope) && last.Score(k).Some? {
        SumNext(numbers, last.Score(k).value);
      } else {
        assert numbers + [] == numbers;
      }
    } else {
      NoneChosen(scope, k);
    }
  }

  lemma MeansAre(records: seq<Record>, scope: Option<Category>)
    ensures AreMeans(Means(Chosen(records, scope)), records, scope)
  {
    var chosen := Chosen(records, scope);
    forall k | k in Means(chosen) ensures Means(chosen)[k] == Mean(Numbers(chosen, k)) {
    }
    hide Chosen, Means, Mean, Numbers, Sum, Average, RoundsTo, Points, Scored;
    forall k | k in Means(chosen)
      ensures if Scored(records, scope, k) == 0 then Means(chosen)[k].None?
              else Means(chosen)[k].Some?
                   && RoundsTo(Average(Points(records, scope, k), Scored(records, scope, k)), Means(chosen)[k].value)
    {
      ChosenExact(records, scope, k);
      MeanRounds(Numbers(chosen, k));
    }
  }

  lemma {:induction false} CategoriesThere(records: seq<Record>, c: Category)
    ensures Of(OkOnly(records), c) != [] <==> exists i :: 0 <= i < |records| && records[i].ok && records[i].category == c
  {
    if records != [] {
      var front, last := records[..|records| - 1], records[|records| - 1];
      assert records == front + [last];
      CategoriesThere(front, c);
      ChosenNext(front, last, Some(c));
      if i :| 0 <= i < |front| && front[i].ok && front[i].category == c { assert records[i].ok; }
      if i :| 0 <= i < |records| && records[i].ok && records[i].category == c {
        assert i < |front| ==> front[i] == records[i];
      }
      if InScope(last, Some(c)) { assert records[|front|].ok; }
    }
  }

  /** Group the OK records by category, then average each group: every category that occurs has an entry
      over exactly its own records, in order. */
  method AggregateScores(records: seq<Record>) returns (t: Table)
    ensures t.numJudgedOk == |OkOnly(records)|
    ensures t.metrics == Means(OkOnly(records)) && t.overall == Overall(t.metrics)
    ensures forall c :: c in t.categories <==> Of(OkOnly(records), c) != []
    ensures forall c :: c in t.categories ==>
              t.categories[c] == Entry(|Of(OkOnly(records), c)|, Means(Of(OkOnly(records), c)))
    ensures Reports(t, records)
  {
    var ok := OkOnly(records);
    var byCategory: map<Category, seq<Record>> := map[];
    for i := 0 to |ok|
      invariant forall c :: c in byCategory <==> Of(ok[..i], c) != []
      invariant forall c :: c in byCategory ==> byCategory[c] == Of(ok[..i], c)
    {
      assert ok[..i + 1][..i] == ok[..i];
      var c := ok[i].category;
      byCategory := byCategory[c := (if c in byCategory then byCategory[c] else []) + [ok[i]]];
    }
    assert ok[..|ok|] == ok;
    var categories := map c | c in byCategory :: Entry(|byCategory[c]|, Means(byCategory[c]));
    t := Table(|ok|, Means(ok), Overall(Means(ok)), categories);
    TableReports(t, records);
  }

  lemma OverallRounds(m: map<Key, Option<real>>)
    requires m.Keys == {Faithfulness, AnswerRelevancy, ContextPrecision}
    ensures Overall(m).Some? <==> forall k :: k in m ==> m[k].Some?
    ensures Overall(m).Some? ==>
              RoundsTo((m[Faithfulness].value + m[AnswerRelevancy].value + m[ContextPrecision].value) / 3.0, Overall(m).value)
  {
    assert Faithfulness in m && AnswerRelevancy in m && ContextPrecision in m;
    if Overall(m).Some? {
      Round4Rounds((m[Faithfulness].value + m[AnswerRelevancy].value + m[ContextPrecision].value) / 3.0);
    }
  }

  lemma TableReports(t: Table, records: seq<Record>)
    requires t.numJudgedOk == |OkOnly(records)|
    requires t.metrics == Means(OkOnly(records)) && t.overall == Overall(t.metrics)
    requires forall c :: c in t.categories <==> Of(OkOnly(records), c) != []
    requires forall c :: c in t.categories ==>
               t.categories[c] == Entry(|Of(OkOnly(records), c)|, Means(Of(OkOnly(records), c)))
    ensures Reports(t, records)
  {
    hide Means, Mean, AreMeans, Tally, Scored, Points, Numbers, Sum, OkOnly, Of, Overall, RoundsTo;
    ChosenExact(records, None, Faithfulness);
    MeansAre(records, None);
    OverallRounds(t.metrics);
    forall c ensures c in t.categories <==> exists i :: 0 <= i < |records| && records[i].ok && records[i].category == c {
      CategoriesThere(records, c);
    }
    forall c | c in t.categories
      ensures t.categories[c].numCases == Tally(records, Some(c)) && AreMeans(t.categories[c].means, records, Some(c))
    {
      ChosenExact(records, Some(c), Faithfulness);
      MeansAre(records, Some(c));
    }
  }

  // ---------------------------------------------------------------- grouping loses nothing

  /** The categories of some records, each listed once, in any order. */
  ghost predicate Lists(cats: seq<Category>, records: seq<Record>) {
    && (forall i, j :: 0 <= i < j < |cats| ==> cats[i] != cats[j])
    && (forall i :: 0 <= i < |records| ==> records[i].category in cats)
  }

  ghost function CountSum(cats: seq<Category>, records: seq<Record>): nat {
    if cats == [] then 0 else CountSum(cats[..|cats| - 1], records) + |Of(records, cats[|cats| - 1])|
  }

  /** Adding a record adds one to the counts if its category is listed, and nothing otherwise. */
  lemma {:induction false} CountSumNext(cats: seq<Category>, front: seq<Record>, last: Record)
    requires forall i, j :: 0 <= i < j < |cats| ==> cats[i] != cats[j]
    ensures CountSum(cats, front + [last]) == CountSum(cats, front) + (if last.category in cats then 1 else 0)
  {
    if cats != [] {
      CountSumNext(cats[..|cats| - 1], front, last);
      assert (front + [last])[..|front|] == front;
    }
  }

  /** The category counts add up to the number of judged records. */
  lemma {:induction false} CountsAddUp(cats: seq<Category>, records: seq<Record>)
    requires Lists(cats, records)
    ensures CountSum(cats, records) == |records|
  {
    if records == [] {
      EmptyCount(cats);
    } else {
      var front, last := records[..|records| - 1], records[|records| - 1];
      assert records == front + [last];
      assert forall i :: 0 <= i < |front| ==> front[i] == records[i];
      CountsAddUp(cats, front);
      CountSumNext(cats, front, last);
    }
  }

  lemma {:induction false} EmptyCount(cats: seq<Category>)
    ensures CountSum(cats, []) == 0
  {
    if cats != [] { EmptyCount(cats[..|cats| - 1]); }
  }

  // ---------------------------------------------------------------- weighted category means

  ghost predicate AllNumeric(records: seq<Record>, k: Key) {
    forall i :: 0 <= i < |records| ==> records[i].Score(k).Some?
  }

  ghost function Total(records: seq<Record>, k: Key): real { Sum(Numbers(records, k)) }

  lemma TotalNext(front: seq<Record>, last: Record, k: Key)
    requires last.Score(k).Some?
    ensures Total(front + [last], k) == Total(front, k) + last.Score(k).value
  {
    var all, n := front + [last], Numbers(front, k);
    assert all[..|all| - 1] == front && all[|all| - 1] == last;
    assert Numbers(all, k) == n + [last.Score(k).value];
    assert (n + [last.Score(k).value])[..|n|] == n;
  }

  ghost function TotalSum(cats: seq<Category>, records: seq<Record>, k: Key): real {
    if cats == [] then 0.0 else TotalSum(cats[..|cats| - 1], records, k) + Total(Of(records, cats[|cats| - 1]), k)
  }

  lemma OfNext(front: seq<Record>, last: Record, c: Category)
    ensures Of(front + [last], c) == if last.category == c then Of(front, c) + [last] else Of(front, c)
  {
    var all := front + [last];
    assert all[..|all| - 1] == front && all[|all| - 1] == last;
  }

  lemma TotalSumSplit(rest: seq<Category>, c: Category, records: seq<Record>, k: Key)
    ensures TotalSum(rest + [c], records, k) == TotalSum(rest, records, k) + Total(Of(records, c), k)
  {
    assert (rest + [c])[..|rest|] == rest;
  }

  lemma TotalOfNext(front: seq<Record>, last: Record, c: Category, k: Key)
    requires last.Score(k).Some?
    ensures Total(Of(front + [last], c), k) == Total(Of(front, c), k) + Share(last, [c], k)
  {
    OfNext(front, last, c);
    if last.category == c { TotalNext(Of(front, c), last, k); }
  }

  /** What a record adds to the totals of the listed categories. */
  ghost function Share(r: Record, cats: seq<Category>, k: Key): real {
    if r.category in cats && r.Score(k).Some? then r.Score(k).value else 0.0
  }

  lemma ShareSplit(r: Record, rest: seq<Category>, c: Category, k: Key)
    requires c !in rest
    ensures Share(r, rest + [c], k) == Share(r, rest, k) + Share(r, [c], k)
  {
  }

  lemma {:induction false} TotalSumNext(cats: seq<Category>, front: seq<Record>, last: Record, k: Key)
    requires forall i, j :: 0 <= i < j < |cats| ==> cats[i] != cats[j]
    requires last.Score(k).Some?
    ensures TotalSum(cats, front + [last], k) == TotalSum(cats, front, k) + Share(last, cats, k)
  {
    if cats != [] {
      var rest, c := cats[..|cats| - 1], cats[|cats| - 1];
      assert cats == rest + [c];
      TotalSumNext(rest, front, last, k);
      TotalOfNext(front, last, c, k);
      ShareSplit(last, rest, c, k);
      TotalSumSplit(rest, c, front, k);
      TotalSumSplit(rest, c, front + [last], k);
    }
  }

  lemma {:induction false} TotalsAddUp(cats: seq<Category>, records: seq<Record>, k: Key)
    requires Lists(cats, records) && AllNumeric(records, k)
    ensures TotalSum(cats, records, k) == Total(records, k)
  {
    if records == [] {
      EmptyTotal(cats, k);
    } else {
      var front, last := records[..|records| - 1], records[|records| - 1];
      assert records == front + [last];
      assert forall i :: 0 <= i < |front| ==> front[i] == records[i];
      TotalsAddUp(cats, front, k);
      TotalSumNext(cats, front, last, k);
      TotalNext(front, last, k);
    }
  }

  lemma {:induction false} EmptyTotal(cats: seq<Category>, k: Key)
    ensures TotalSum(cats, [], k) == 0.0
  {
    if cats != [] { EmptyTotal(cats[..|cats| - 1], k); }
  }

  /** The rounded mean of a category, weighted by its count; an empty category weighs nothing. */
  ghost function Weighted(records: seq<Record>, k: Key): real { Times(|records|, Mean(Numbers(records, k))) }

  function Times(n: nat, mean: Option<real>): real { if mean.None? then 0.0 else n as real * mean.value }

  ghost function WeightedSum(cats: seq<Category>, records: seq<Record>, k: Key): real {
    if cats == [] then 0.0 else WeightedSum(cats[..|cats| - 1], records, k) + Weighted(Of(records, cats[|cats| - 1]), k)
  }

  lemma {:induction false} NumbersAll(records: seq<Record>, k: Key)
    requires AllNumeric(records, k)
    ensures |Numbers(records, k)| == |records|
  {
    if records != [] { NumbersAll(records[..|records| - 1], k); }
  }

  lemma {:induction false} OfNumeric(records: seq<Record>, c: Category, k: Key)
    requires AllNumeric(records, k)
    ensures AllNumeric(Of(records, c), k)
  {
    if records != [] { OfNumeric(records[..|records| - 1], c, k); }
  }

  /** Rounding a mean moves count times mean by at most count times half a ten-thousandth. */
  lemma WeightedClose(records: seq<Record>, k: Key)
    requires AllNumeric(records, k)
    ensures var n, total := |records| as real, Total(records, k);
            total - 0.00005 * n <= Weighted(records, k) <= total + 0.00005 * n
  {
    hide Times, Mean, Numbers, Sum;
    NumbersAll(records, k);
    RoundedClose(Numbers(records, k));
  }

  lemma RoundedClose(s: seq<real>)
    ensures Sum(s) - 0.00005 * |s| as real <= Times(|s|, Mean(s)) <= Sum(s) + 0.00005 * |s| as real
  {
    if s != [] {
      var q := Quotient(|s| as real, Sum(s));
      MeanClose(s, q);
      hide *;
      assert Mean(s) == Some(Mean(s).value);
      TimesClose(|s|, Mean(s).value, q, Sum(s));
    }
  }

  lemma TimesClose(n: nat, mean: real, q: real, sum: real)
    requires n as real * q == sum && q - 0.00005 <= mean <= q + 0.00005
    ensures sum - 0.00005 * n as real <= Times(n, Some(mean)) <= sum + 0.00005 * n as real
  {
    if n > 0 { ScaleBound(n as real, q, 0.00005, mean, 0.00005 * n as real); }
  }

  lemma Quotient(w: real, total: real) returns (q: real)
    requires w > 0.0
    ensures w * q == total && q == total / w
  {
    q := total / w;
  }

  lemma MeanClose(s: seq<real>, q: real)
    requires s != [] && q == Sum(s) / |s| as real
    ensures Mean(s).Some? && q - 0.00005 <= Mean(s).value <= q + 0.00005
  {
  }

  lemma ScaleBound(w: real, q: real, e: real, x: real, slack: real)
    requires w > 0.0 && q - e <= x <= q + e && slack == e * w
    ensures w * q - slack <= w * x <= w * q + slack
  {
    Distribute(w, q - e, e);
    Distribute(w, q, e);
    Scale(w, q - e, x);
    Scale(w, x, q + e);
  }

  lemma Scale(w: real, a: real, b: real)
    requires w >= 0.0 && a <= b
    ensures w * a <= w * b
  {
  }

  lemma {:induction false} WeightedSumClose(cats: seq<Category>, records: seq<Record>, k: Key)
    requires AllNumeric(records, k)
    ensures TotalSum(cats, records, k) - 0.00005 * CountSum(cats, records) as real <= WeightedSum(cats, records, k)
            <= TotalSum(cats, records, k) + 0.00005 * CountSum(cats, records) as real
  {
    if cats != [] {
      var front, c := cats[..|cats| - 1], cats[|cats| - 1];
      WeightedSumClose(front, records, k);
      OfNumeric(records, c, k);
      WeightedClose(Of(records, c), k);
    }
  }

  /** When every score is a number, the count-weighted mean of the rounded category means differs from the
      rounded overall mean by at most one ten-thousandth. */
  lemma WeightedMeanClose(cats: seq<Category>, records: seq<Record>, k: Key)
    requires records != [] && Lists(cats, records) && AllNumeric(records, k)
    ensures Mean(Numbers(records, k)).Some?
    ensures var weighted := WeightedSum(cats, records, k) / |records| as real;
            var overall := Mean(Numbers(records, k)).value;
            overall - 0.0001 <= weighted <= overall + 0.0001
  {
    NumbersAll(records, k);
    CountsAddUp(cats, records);
    TotalsAddUp(cats, records, k);
    WeightedSumClose(cats, records, k);
    var n, total, sum := |records| as real, Total(records, k), WeightedSum(cats, records, k);
    DivideBound(n, total, sum);
  }

  lemma DivideBound(n: real, total: real, sum: real)
    requires n > 0.0 && total - 0.00005 * n <= sum <= total + 0.00005 * n
    ensures total / n - 0.00005 <= sum / n <= total / n + 0.00005
  {
    var q, s := total / n, sum / n;
    assert n * q == total && n * s == sum;
    Distribute(n, q, -0.00005);
    Distribute(n, q, 0.00005);
    Cancel(n, q - 0.00005, s);
    Cancel(n, s, q + 0.00005);
  }

  lemma Distribute(n: real, a: real, b: real)
    ensures n * (a + b) == n * a + n * b
  {
  }

  lemma Cancel(n: real, a: real, b: real)
    requires n > 0.0 && n * a <= n * b
    ensures a <= b
  {
    if b < a { StrictScale(n, b, a); }
  }

  lemma StrictScale(n: real, a: real, b: real)
    requires n > 0.0 && a < b
    ensures n * a < n * b
  {
  }
}
