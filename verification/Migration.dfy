/** Copying the local collection to the cloud, page by page (scripts/migrate_to_qdrant_cloud.py). */
module Migration {
  import opened Outcomes

  datatype Point = Point(id: int, payload: string)

  /** A collection as scrolling sees it: points by strictly increasing id. */
  ghost predicate ById(s: seq<Point>) {
    forall i, j :: 0 <= i < j < |s| ==> s[i].id < s[j].id
  }

  /** The points of a list, by id. */
  function Stored(s: seq<Point>): map<int, Point> {
    if s == [] then map[] else Stored(s[..|s| - 1])[s[|s| - 1].id := s[|s| - 1]]
  }

  lemma {:induction false} StoredHas(s: seq<Point>, id: int)
    ensures id in Stored(s) <==> exists i :: 0 <= i < |s| && s[i].id == id
  {
    if s != [] {
      var front := s[..|s| - 1];
      StoredHas(front, id);
      assert forall i :: 0 <= i < |front| ==> s[i] == front[i];
    }
  }

  /** With increasing ids, every point is found under its own id. */
  lemma {:induction false} StoredAt(s: seq<Point>, i: nat)
    requires ById(s) && i < |s|
    ensures s[i].id in Stored(s) && Stored(s)[s[i].id] == s[i]
  {
    if i < |s| - 1 {
      StoredAt(s[..|s| - 1], i);
      assert s[i].id < s[|s| - 1].id;
    }
  }

  const BATCH := 100

  /** The local store: the first BATCH points from `offset` on, and the id of the next one, if any. */
  function Position(s: seq<Point>, offset: Option<int>): (i: nat)
    ensures i <= |s|
  {
    if offset.None? || s == [] || s[0].id >= offset.value then 0 else 1 + Position(s[1..], offset)
  }

  function Scroll(s: seq<Point>, offset: Option<int>): (seq<Point>, Option<int>) {
    var from := Position(s, offset);
    var to := Min(from + BATCH, |s|);
    (s[from..to], if to < |s| then Some(s[to].id) else None)
  }

  lemma {:induction false} PositionOfId(s: seq<Point>, i: nat)
    requires ById(s) && i < |s|
    ensures Position(s, Some(s[i].id)) == i
  {
    if i > 0 {
      assert s[0].id < s[i].id;
      PositionOfId(s[1..], i - 1);
    }
  }

  /** The cloud side. `sent` is history: every point of every upsert, in order, and `upserts` their number. */
  class Cloud {
    var points: Option<map<int, Point>>
    var sent: seq<Point>
    var upserts: nat

    method Upsert(records: seq<Point>)
      requires points.Some?
      modifies this
      ensures points == Some(old(points.value) + Stored(records))
      ensures sent == old(sent) + records && upserts == old(upserts) + 1
    {
      points := Some(points.value + Stored(records));
      sent, upserts := sent + records, upserts + 1;
    }
  }

  lemma {:induction false} StoredConcat(a: seq<Point>, b: seq<Point>)
    ensures Stored(a + b) == Stored(a) + Stored(b)
  {
    if b == [] {
      assert a + b == a;
    } else {
      var front, last := b[..|b| - 1], b[|b| - 1];
      StoredConcat(a, front);
      assert (a + b)[..|a + b| - 1] == a + front && (a + b)[|a + b| - 1] == last;
      UpdateOfUnion(Stored(a), Stored(front), last);
    }
  }

  lemma UpdateOfUnion(a: map<int, Point>, b: map<int, Point>, p: Point)
    ensures (a + b)[p.id := p] == a + b[p.id := p]
  {
  }

  lemma {:induction false} StoredSize(s: seq<Point>)
    requires ById(s)
    ensures |Stored(s)| == |s|
  {
    if s != [] {
      var front, last := s[..|s| - 1], s[|s| - 1];
      StoredSize(front);
      StoredHas(front, last.id);
      assert forall i :: 0 <= i < |front| ==> front[i].id < last.id;
    }
  }

  /** What the cloud starts from: an existing collection is kept unless it is recreated. */
  function Base(points: Option<map<int, Point>>, recreate: bool): map<int, Point> {
    if recreate || points.None? then map[] else points.value
  }

  /** The points the cloud must end with: the local ones, and of the others those that were there and were not
      cleared away. */
  ghost predicate Overridden(before: Option<map<int, Point>>, recreate: bool, local: seq<Point>, after: Option<map<int, Point>>) {
    && after.Some?
    && (forall i :: 0 <= i < |local| ==> local[i].id in after.value && after.value[local[i].id] == local[i])
    && forall id :: (forall i :: 0 <= i < |local| ==> local[i].id != id) ==>
         && (id in after.value <==> !recreate && before.Some? && id in before.value)
         && (id in after.value ==> after.value[id] == before.value[id])
  }

  /** The cloud holds nothing but the local points. */
  ghost predicate OnlyLocal(local: seq<Point>, after: Option<map<int, Point>>) {
    after.Some? && forall id :: id in after.value ==> exists i :: 0 <= i < |local| && local[i].id == id
  }

  lemma OverriddenBy(before: Option<map<int, Point>>, recreate: bool, local: seq<Point>)
    requires ById(local)
    ensures var after := Some(Base(before, recreate) + Stored(local));
            Overridden(before, recreate, local, after) && (OnlyLocal(local, after) <==> after == Some(Stored(local)))
  {
    forall i | 0 <= i < |local| ensures local[i].id in Stored(local) && Stored(local)[local[i].id] == local[i] {
      StoredAt(local, i);
    }
    forall id ensures id in Stored(local) <==> exists i :: 0 <= i < |local| && local[i].id == id {
      StoredHas(local, id);
    }
    OverrideDecides(Base(before, recreate), Stored(local));
    hide Stored;
  }

  /** Every local point is sent exactly once, in order; the cloud becomes its old content overridden by
      the local points; and the final count check passes exactly when the cloud then equals the local
      collection, that is when the kept collection had no id the local one lacks. */
  method Migrate(local: Option<seq<Point>>, cloud: Cloud, recreate: bool) returns (r: Result<nat>)
    requires local.Some? ==> ById(local.value)
    modifies cloud
    ensures local.None? ==> r.Raised? && cloud.points == old(cloud.points) && cloud.sent == old(cloud.sent)
    ensures local.Some? ==>
      && cloud.sent == old(cloud.sent) + local.value
      && cloud.points == Some(Base(old(cloud.points), recreate) + Stored(local.value))
      && (r.Ok? <==> cloud.points == Some(Stored(local.value)))
      && (r.Ok? <==> Base(old(cloud.points), recreate).Keys <= Stored(local.value).Keys)
      && (r.Ok? ==> r.value == |local.value|)
      && Overridden(old(cloud.points), recreate, local.value, cloud.points)
      && (r.Ok? <==> OnlyLocal(local.value, cloud.points))
      && cloud.upserts == old(cloud.upserts) + (|local.value| + 99) / 100
  {
    if local.None? { return Raised("Local collection does not exist"); }
    var total := |local.value|;
    if recreate && cloud.points.Some? { cloud.points := None; }
    if cloud.points.None? { cloud.points := Some(map[]); }
    ghost var base := cloud.points.value;
    var migrated := CopyPages(local.value, cloud);
    OverriddenBy(old(cloud.points), recreate, local.value);
    StoredSize(local.value);
    CountDecides(base, Stored(local.value));
    OverrideDecides(base, Stored(local.value));
    if |cloud.points.value| != total { return Raised("Point count mismatch after migration"); }
    r := Ok(migrated);
  }

  /** The scroll-and-upsert loop. */
  method CopyPages(local: seq<Point>, cloud: Cloud) returns (migrated: nat)
    requires ById(local) && cloud.points.Some?
    modifies cloud
    ensures migrated == |local| && cloud.sent == old(cloud.sent) + local
    ensures cloud.points == Some(old(cloud.points.value) + Stored(local))
    ensures cloud.upserts == old(cloud.upserts) + (|local| + 99) / 100
  {
    ghost var base := cloud.points.value;
    ghost var done: nat := 0;
    EmptyPage(base, cloud.sent, local);
    migrated := 0;
    var offset: Option<int> := None;
    while true
      invariant done <= |local| && migrated == done
      invariant Position(local, offset) == done
      invariant cloud.sent == old(cloud.sent) + local[..done]
      invariant cloud.points == Some(base + Stored(local[..done]))
      invariant cloud.upserts == old(cloud.upserts) + done / 100 && (done % 100 == 0)
      decreases |local| - done
    {
      var (records, nextOffset) := Scroll(local, offset);
      if records == [] { break; }
      ghost var to := done + |records|;
      NextPage(base, old(cloud.sent), local, done, to);
      cloud.Upsert(records);
      migrated := migrated + |records|;
      done := to;
      if nextOffset.None? { break; }
      PositionOfId(local, to);
      offset := nextOffset;
    }
    assert local[..|local|] == local;
  }

  lemma EmptyPage(base: map<int, Point>, sent: seq<Point>, local: seq<Point>)
    ensures base + Stored(local[..0]) == base && sent + local[..0] == sent
  {
  }

  lemma NextPage(base: map<int, Point>, sent: seq<Point>, local: seq<Point>, done: nat, to: nat)
    requires done <= to <= |local|
    ensures base + Stored(local[..done]) + Stored(local[done..to]) == base + Stored(local[..to])
    ensures sent + local[..done] + local[done..to] == sent + local[..to]
  {
    assert local[..done] + local[done..to] == local[..to];
    StoredConcat(local[..done], local[done..to]);
    UnionAssociates(base, Stored(local[..done]), Stored(local[done..to]));
  }

  lemma UnionAssociates(a: map<int, Point>, b: map<int, Point>, c: map<int, Point>)
    ensures a + b + c == a + (b + c)
  {
  }

  lemma UnionSize(base: map<int, Point>, local: map<int, Point>)
    ensures |base + local| == |local| + |base.Keys - local.Keys|
  {
    assert (base + local).Keys == local.Keys + (base.Keys - local.Keys);
    assert |(base + local).Keys| == |base + local| && |local.Keys| == |local|;
  }

  /** Comparing sizes after overriding is comparing the ids ... */
  lemma CountDecides(base: map<int, Point>, local: map<int, Point>)
    ensures |base + local| == |local| <==> base.Keys <= local.Keys
  {
    UnionSize(base, local);
    EmptyDifference(base.Keys, local.Keys);
  }

  lemma EmptyDifference(a: set<int>, b: set<int>)
    ensures |a - b| == 0 <==> a <= b
  {
    if |a - b| == 0 {
      assert a - b == {};
      forall x | x in a ensures x in b {
        assert x !in a - b;
      }
    }
    if a <= b {
      assert a - b == {};
    }
  }

  /** ... which is comparing the collections. */
  lemma OverrideDecides(base: map<int, Point>, local: map<int, Point>)
    ensures base + local == local <==> base.Keys <= local.Keys
  {
    if base.Keys <= local.Keys {
      assert base + local == local;
    }
    if base + local == local {
      assert forall id :: id in base ==> id in base + local;
    }
  }
}
