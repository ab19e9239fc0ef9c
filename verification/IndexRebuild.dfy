/** Rebuilding the index with a trust manifest (scripts/index_chunks.py). Every storage call may fail
    before or after taking effect, an upsert may silently lose points, and the process may die between
    any two calls: `trace` records every state the disk and the collection go through. */
module IndexRebuild {
  import opened Outcomes

  type Id = string

  type Vector = seq<real>

  /** A chunk: its identity, the canonical text and fields, its embedding, and the rest of its payload. */
  datatype Chunk = Chunk(id: Id, canonical: string, embedding: Vector, rest: string)

  type Collection = map<Id, Chunk>

  /** Fingerprints are collision free, so they stand for what they were computed from. */
  type Fingerprint = map<Id, string>
  type Snapshot = map<Id, Vector>

  datatype Manifest = Manifest(fingerprint: Fingerprint, snapshot: Snapshot, dimension: int, pointCount: nat)

  datatype Generation = Generation(complete: bool, dimension: int, pointCount: nat, fingerprint: Fingerprint, snapshot: Snapshot)

  datatype World = World(manifest: Option<Manifest>, collection: Option<Collection>)

  function FingerprintOf(c: Collection): Fingerprint {
    map id | id in c :: c[id].canonical
  }

  function SnapshotOf(c: Collection): Snapshot {
    map id | id in c :: c[id].embedding
  }

  /** The manifest describes this collection: as many points, the same identifiers, and for each of them the same
      canonical content and embedding. */
  ghost predicate Describes(m: Manifest, c: Collection) {
    && m.pointCount == |c| && m.fingerprint.Keys == c.Keys && m.snapshot.Keys == c.Keys
    && forall id :: id in c ==> m.fingerprint[id] == c[id].canonical && m.snapshot[id] == c[id].embedding
  }

  /** A present manifest never describes anything but the collection that is there. */
  ghost predicate Trusted(w: World) {
    w.manifest.Some? ==> w.collection.Some? && Describes(w.manifest.value, w.collection.value)
  }

  // ---------------------------------------------------------------- upserting and counting

  function UpsertAll(c: Collection, chunks: seq<Chunk>): (r: Collection)
    ensures forall id :: id in r <==> id in c || exists i :: 0 <= i < |chunks| && chunks[i].id == id
  {
    if chunks == [] then c
    else
      var last := chunks[|chunks| - 1];
      UpsertAll(c, chunks[..|chunks| - 1])[last.id := last]
  }

  ghost predicate DistinctIds(chunks: seq<Chunk>) {
    forall i, j :: 0 <= i < j < |chunks| ==> chunks[i].id != chunks[j].id
  }

  ghost function Ids(chunks: seq<Chunk>): set<Id> { set x | x in chunks :: x.id }

  lemma UpsertedIds(chunks: seq<Chunk>)
    ensures UpsertAll(map[], chunks).Keys == Ids(chunks)
  {
  }

  lemma IdsNext(front: seq<Chunk>, last: Chunk)
    ensures Ids(front + [last]) == Ids(front) + {last.id}
    ensures DistinctIds(front + [last]) <==> DistinctIds(front) && last.id !in Ids(front)
  {
    var all := front + [last];
    assert forall x :: x in all <==> x in front || x == last;
    if DistinctIds(all) {
      assert forall i :: 0 <= i < |front| ==> all[i] == front[i] && all[|front|] == last;
    }
    if DistinctIds(front) && last.id !in Ids(front) {
      assert forall i :: 0 <= i < |front| ==> front[i] in front;
    }
  }

  lemma {:induction false} IdCount(chunks: seq<Chunk>)
    ensures |Ids(chunks)| <= |chunks|
    ensures |Ids(chunks)| == |chunks| <==> DistinctIds(chunks)
  {
    if chunks == [] {
      assert Ids(chunks) == {};
    } else {
      var front, last := chunks[..|chunks| - 1], chunks[|chunks| - 1];
      assert chunks == front + [last];
      IdCount(front);
      IdsNext(front, last);
      assert last.id in Ids(front) ==> Ids(front) + {last.id} == Ids(front);
    }
  }

  /** On a fresh collection the point count equals the number of chunks exactly when no two chunks
      share an id, that is when no upsert overwrote another. */
  lemma CountForcesDistinct(chunks: seq<Chunk>)
    ensures |UpsertAll(map[], chunks)| <= |chunks|
    ensures |UpsertAll(map[], chunks)| == |chunks| <==> DistinctIds(chunks)
  {
    UpsertedIds(chunks);
    IdCount(chunks);
    assert |UpsertAll(map[], chunks).Keys| == |UpsertAll(map[], chunks)|;
  }

  /** Part of a collection that is as large as the whole is the whole. */
  lemma SubmapOfSameSize(part: Collection, whole: Collection)
    requires part.Keys <= whole.Keys && (forall id :: id in part ==> part[id] == whole[id])
    requires |part| >= |whole|
    ensures part == whole
  {
    var missing := whole.Keys - part.Keys;
    assert whole.Keys == part.Keys + missing;
    assert |part.Keys| == |part| && |whole.Keys| == |whole|;
    assert missing == {};
  }

  // ---------------------------------------------------------------- the proposed manifest

  function Duplicated(chunks: seq<Chunk>): bool {
    exists i, j :: 0 <= i < j < |chunks| && chunks[i].id == chunks[j].id
  }

  /** The manifest built from the inputs before anything is touched. */
  function BuildManifest(chunks: seq<Chunk>, generation: Generation): Result<Manifest> {
    if chunks == [] then Raised("Cannot build an index manifest for an empty corpus")
    else if !generation.complete then Raised("Embedding generation must be complete before indexing")
    else if exists i :: 0 <= i < |chunks| && chunks[i].id == "" then Raised("Corpus chunk_id must be a non-empty string")
    else if Duplicated(chunks) then Raised("Corpus contains duplicate chunk IDs")
    else if generation.dimension <= 0 then Raised("vector_dimension must be a positive integer")
    else if exists i :: 0 <= i < |chunks| && |chunks[i].embedding| != generation.dimension then
      Raised("embedding dimension does not match")
    else if generation.pointCount != |chunks| then Raised("Embedding generation point_count does not match chunks")
    else if generation.fingerprint != FingerprintOf(UpsertAll(map[], chunks)) then
      Raised("Embedding generation corpus_fingerprint does not match chunks")
    else if generation.snapshot != SnapshotOf(UpsertAll(map[], chunks)) then
      Raised("Embedding generation vector_snapshot_id does not match chunks")
    else Ok(Manifest(generation.fingerprint, generation.snapshot, generation.dimension, |chunks|))
  }

  /** The inputs fit together: chunks there are, each with a name of its own and an embedding of the one positive
      dimension, from a complete generation whose count and fingerprints are those of exactly these chunks. */
  ghost predicate Consistent(chunks: seq<Chunk>, generation: Generation) {
    && chunks != [] && generation.complete && generation.dimension > 0 && generation.pointCount == |chunks|
    && (forall i :: 0 <= i < |chunks| ==> chunks[i].id != "" && |chunks[i].embedding| == generation.dimension)
    && (forall i, j :: 0 <= i < j < |chunks| ==> chunks[i].id != chunks[j].id)
    && Fingerprinted(chunks, generation.fingerprint) && Snapped(chunks, generation.snapshot)
  }

  /** The fingerprint covers exactly these chunks: each name with its canonical content. */
  ghost predicate Fingerprinted(chunks: seq<Chunk>, fingerprint: Fingerprint) {
    fingerprint.Keys == Ids(chunks) && forall i :: 0 <= i < |chunks| ==> chunks[i].id in fingerprint && fingerprint[chunks[i].id] == chunks[i].canonical
  }

  ghost predicate Snapped(chunks: seq<Chunk>, snapshot: Snapshot) {
    snapshot.Keys == Ids(chunks) && forall i :: 0 <= i < |chunks| ==> chunks[i].id in snapshot && snapshot[chunks[i].id] == chunks[i].embedding
  }

  /** A manifest is built exactly from consistent inputs. */
  lemma BuiltIffConsistent(chunks: seq<Chunk>, generation: Generation)
    ensures BuildManifest(chunks, generation).Ok? <==> Consistent(chunks, generation)
    ensures BuildManifest(chunks, generation).Ok? ==>
              BuildManifest(chunks, generation).value ==
                Manifest(generation.fingerprint, generation.snapshot, generation.dimension, |chunks|)
  {
    hide UpsertAll, FingerprintOf, SnapshotOf, Fingerprinted, Snapped;
    if DistinctIds(chunks) {
      FingerprintExact(chunks, generation.fingerprint);
      SnapshotExact(chunks, generation.snapshot);
    }
  }

  lemma FingerprintExact(chunks: seq<Chunk>, fingerprint: Fingerprint)
    requires DistinctIds(chunks)
    ensures fingerprint == FingerprintOf(UpsertAll(map[], chunks)) <==> Fingerprinted(chunks, fingerprint)
  {
    StoredExact(chunks);
    hide UpsertAll;
  }

  lemma SnapshotExact(chunks: seq<Chunk>, snapshot: Snapshot)
    requires DistinctIds(chunks)
    ensures snapshot == SnapshotOf(UpsertAll(map[], chunks)) <==> Snapped(chunks, snapshot)
  {
    StoredExact(chunks);
    hide UpsertAll;
  }

  /** With distinct names, what is stored is exactly each chunk under its own name. */
  lemma StoredExact(chunks: seq<Chunk>)
    requires DistinctIds(chunks)
    ensures var whole := UpsertAll(map[], chunks);
            && whole.Keys == Ids(chunks)
            && (forall i :: 0 <= i < |chunks| ==> chunks[i].id in whole && whole[chunks[i].id] == chunks[i])
            && (forall id :: id in whole ==> exists i :: 0 <= i < |chunks| && chunks[i].id == id)
  {
    UpsertedIds(chunks);
    forall i | 0 <= i < |chunks|
      ensures chunks[i].id in UpsertAll(map[], chunks) && UpsertAll(map[], chunks)[chunks[i].id] == chunks[i]
    {
      FoundUnderOwnId(chunks, chunks[i]);
    }
  }

  // ---------------------------------------------------------------- storage with faults

  /** How one storage call goes. `Loses` is an upsert acknowledged without storing these points, `FailsBetween`
      one that stores all but these points and then fails. */
  datatype Fault = Works | FailsBefore | FailsAfter | Loses(ids: set<Id>) | FailsBetween(ids: set<Id>) {
    predicate Raises() { FailsBefore? || FailsAfter? || FailsBetween? }
  }

  const BATCH := 100

  class IndexStore {
    var manifest: Option<Manifest>
    var collection: Option<Collection>
    var calls: nat
    /** Decides every storage call, by its number. */
    const fault: nat -> Fault
    var trace: seq<World>

    function Now(): World reads this { World(manifest, collection) }

    /** Every state so far was trusted, the present one included. */
    ghost predicate Safe() reads this {
      trace != [] && trace[|trace| - 1] == Now() && forall i :: 0 <= i < |trace| ==> Trusted(trace[i])
    }

    constructor (fault: nat -> Fault)
      ensures Safe() && manifest.None? && collection.None? && this.fault == fault
    {
      this.fault := fault;
      manifest, collection, calls := None, None, 0;
      trace := [World(None, None)];
    }

    /** One storage call that moves the world to `next` unless it fails first. */
    method Attempt(next: World) returns (raised: bool)
      requires Safe() && Trusted(next)
      modifies this
      ensures Safe() && old(trace) <= trace
      ensures raised <==> fault(old(calls)).FailsBefore? || fault(old(calls)).FailsAfter? || fault(old(calls)).FailsBetween?
      ensures Now() == if fault(old(calls)).FailsBefore? then old(Now()) else next
      ensures calls == old(calls) + 1
    {
      var f := fault(calls);
      calls := calls + 1;
      raised := f.Raises();
      if !f.FailsBefore? {
        manifest, collection := next.manifest, next.collection;
      }
      trace := trace + [Now()];
    }

    ghost predicate AllWork(from: nat, to: nat) {
      forall k :: from <= k < to ==> fault(k).Works?
    }

    ghost predicate NoneFails(from: nat, to: nat) {
      forall k :: from <= k < to ==> !fault(k).Raises()
    }

    method UpsertBatch(chunks: seq<Chunk>, done: nat, end: nat) returns (raised: bool)
      requires done <= end <= |chunks|
      requires Safe() && manifest.None? && collection.Some? && PartOf(collection.value, chunks[..done])
      modifies this
      ensures Safe() && old(trace) <= trace && manifest.None? && collection.Some?
      ensures PartOf(collection.value, chunks)
      ensures calls == old(calls) + 1
      ensures raised <==> !NoneFails(old(calls), calls)
      ensures !raised ==> PartOf(collection.value, chunks[..end])
      ensures match fault(old(calls))
              case FailsBefore => collection == old(collection)
              case Loses(ids) => collection.value == UpsertAll(old(collection.value), Without(chunks[done..end], ids))
              case FailsBetween(ids) => collection.value == UpsertAll(old(collection.value), Without(chunks[done..end], ids))
              case _ => collection.value == UpsertAll(old(collection.value), chunks[done..end])
    {
      hide UpsertAll, Without, PartOf;
      var f := fault(calls);
      var kept := if f.Loses? || f.FailsBetween? then Without(chunks[done..end], f.ids) else chunks[done..end];
      PartGrows(collection.value, chunks, done, end, kept);
      raised := Attempt(World(None, Some(UpsertAll(collection.value, kept))));
    }

    /** Upserting in batches; each batch is one storage call. Whatever is stored is part of the input,
        and all of it when no batch failed or lost anything. */
    method UpsertChunks(chunks: seq<Chunk>) returns (raised: bool)
      requires Safe() && manifest.None? && collection == Some(map[])
      modifies this
      ensures Safe() && old(trace) <= trace && manifest.None? && collection.Some? && old(calls) <= calls
      ensures PartOf(collection.value, chunks)
      ensures raised ==> !NoneFails(old(calls), calls)
      ensures AllWork(old(calls), calls) ==> !raised && collection.value == UpsertAll(map[], chunks)
    {
      raised := false;
      var done := 0;
      while done < |chunks| && !raised
        invariant 0 <= done <= |chunks| && old(calls) <= calls
        invariant Safe() && old(trace) <= trace && manifest.None? && collection.Some?
        invariant PartOf(collection.value, chunks)
        invariant !raised ==> PartOf(collection.value, chunks[..done])
        invariant raised ==> !NoneFails(old(calls), calls)
        invariant AllWork(old(calls), calls) ==> !raised && collection.value == UpsertAll(map[], chunks[..done])
        decreases |chunks| - done, !raised
      {
        var end := Min(done + BATCH, |chunks|);
        UpsertConcat(map[], chunks[..done], chunks[done..end]);
        assert chunks[..done] + chunks[done..end] == chunks[..end];
        raised := UpsertBatch(chunks, done, end);
        done := end;
      }
      assert chunks[..|chunks|] == chunks;
    }

    /** One rebuild. Whatever fails, every state on the way is trusted. Rejected inputs change nothing,
        and without faults the rebuild succeeds exactly for acceptable inputs. */
    method Rebuild(chunks: seq<Chunk>, generation: Generation) returns (r: Result<Manifest>)
      requires Safe()
      modifies this
      ensures Safe() && old(trace) <= trace
      ensures r.Ok? ==> r == BuildManifest(chunks, generation)
                        && Now() == World(Some(r.value), Some(UpsertAll(map[], chunks)))
      ensures r.Ok? ==> Published(chunks, generation, r.value, Now())
      ensures !Consistent(chunks, generation) ==> r.Raised? && trace == old(trace)
      ensures AllWork(old(calls), calls) ==> (r.Ok? <==> Consistent(chunks, generation))
      ensures r.Raised? && NoneFails(old(calls), calls) ==>
                manifest.None? || trace == old(trace)
    {
      BuiltIffConsistent(chunks, generation);
      PublishedIs(chunks, generation);
      hide Consistent, Published;
      var proposed := BuildManifest(chunks, generation);
      if proposed.Raised? { return Raised(proposed.reason); }
      var raised := Attempt(World(None, collection));
      if raised { return Raised("unlink"); }
      raised := Fill(chunks, proposed.value);
      if raised {
        var _ := Attempt(World(None, collection));
        return Raised("rebuild failed");
      }
      r := proposed;
    }

    /** The guarded part: drop, create, upsert, count, publish. */
    method Fill(chunks: seq<Chunk>, proposed: Manifest) returns (raised: bool)
      requires Safe() && manifest.None?
      requires DistinctIds(chunks)
      requires Describes(proposed, UpsertAll(map[], chunks))
      modifies this
      ensures Safe() && old(trace) <= trace && old(calls) <= calls
      ensures !raised ==> Now() == World(Some(proposed), Some(UpsertAll(map[], chunks)))
      ensures AllWork(old(calls), calls) ==> !raised
    {
      raised := Attempt(Now());                       // list the collections
      if raised { return; }
      if collection.Some? {
        raised := Attempt(World(None, None));         // delete the existing one
        if raised { return; }
      }
      raised := Create();
      if raised { return; }
      raised := UpsertChunks(chunks);
      if raised { return; }
      raised := Publish(chunks, proposed);
    }

    /** Create the collection if it is not there; one that exists is left as it is. */
    method Create() returns (raised: bool)
      requires Safe() && manifest.None?
      modifies this
      ensures Safe() && old(trace) <= trace && old(calls) <= calls && manifest.None?
      ensures !raised ==> collection == if old(collection).Some? then old(collection) else Some(map[])
      ensures AllWork(old(calls), calls) ==> !raised
    {
      raised := Attempt(Now());                       // list the collections
      if raised { return; }
      if collection.None? {
        raised := Attempt(World(None, Some(map[])));
        if raised { return; }
      }
      raised := Attempt(Now());                       // ensure the payload indexes
    }

    /** Publish the manifest only when the point count shows that nothing was lost. */
    method Publish(chunks: seq<Chunk>, proposed: Manifest) returns (raised: bool)
      requires Safe() && manifest.None? && collection.Some?
      requires DistinctIds(chunks) && PartOf(collection.value, chunks)
      requires Describes(proposed, UpsertAll(map[], chunks))
      modifies this
      ensures Safe() && old(trace) <= trace && old(calls) <= calls
      ensures !raised ==> Now() == World(Some(proposed), Some(UpsertAll(map[], chunks)))
      ensures AllWork(old(calls), calls) && old(collection) == Some(UpsertAll(map[], chunks)) ==> !raised
    {
      raised := Attempt(Now());                       // read the point count
      if raised { return; }
      CountForcesDistinct(chunks);
      if |collection.value| != |chunks| { return true; }
      SubmapOfSameSize(collection.value, UpsertAll(map[], chunks));
      raised := Attempt(World(Some(proposed), collection));
    }

    /** The process dies and only what was reached by state `k` of the trace is left. */
    method Crash(k: nat)
      requires Safe() && k < |trace|
      modifies this
      ensures Safe() && Now() == old(trace)[k] && trace == old(trace) + [old(trace)[k]] && calls == old(calls)
    {
      manifest, collection := trace[k].manifest, trace[k].collection;
      trace := trace + [trace[k]];
    }
  }

  /** The published manifest carries the generation's figures, and the collection holds every chunk under its own
      name and nothing else. */
  ghost predicate Published(chunks: seq<Chunk>, generation: Generation, m: Manifest, w: World) {
    && m == Manifest(generation.fingerprint, generation.snapshot, generation.dimension, |chunks|)
    && w.manifest == Some(m) && w.collection.Some? && w.collection.value.Keys == Ids(chunks)
    && forall i :: 0 <= i < |chunks| ==> chunks[i].id in w.collection.value && w.collection.value[chunks[i].id] == chunks[i]
  }

  lemma PublishedIs(chunks: seq<Chunk>, generation: Generation)
    requires Consistent(chunks, generation) ==> BuildManifest(chunks, generation).Ok?
    ensures Consistent(chunks, generation) ==>
              var m, whole := BuildManifest(chunks, generation).value, UpsertAll(map[], chunks);
              Describes(m, whole) && Published(chunks, generation, m, World(Some(m), Some(whole)))
  {
    if Consistent(chunks, generation) {
      BuiltIffConsistent(chunks, generation);
      CountForcesDistinct(chunks);
      StoredExact(chunks);
      hide UpsertAll;
    }
  }

  /** Everything stored came unchanged from the chunks. */
  ghost predicate PartOf(c: Collection, chunks: seq<Chunk>) {
    var whole := UpsertAll(map[], chunks);
    DistinctIds(chunks) ==> c.Keys <= whole.Keys && forall id :: id in c ==> c[id] == whole[id]
  }

  function Without(chunks: seq<Chunk>, ids: set<Id>): (r: seq<Chunk>)
    ensures forall x :: x in r <==> x in chunks && x.id !in ids
  {
    if chunks == [] then []
    else (if chunks[0].id in ids then [] else [chunks[0]]) + Without(chunks[1..], ids)
  }

  lemma {:induction false} UpsertConcat(c: Collection, a: seq<Chunk>, b: seq<Chunk>)
    ensures UpsertAll(c, a + b) == UpsertAll(UpsertAll(c, a), b)
  {
    if b == [] {
      assert a + b == a;
    } else {
      UpsertConcat(c, a, b[..|b| - 1]);
      assert (a + b)[..|a + b| - 1] == a + b[..|b| - 1];
    }
  }

  /** With distinct ids, every chunk is found under its id, whatever order they were stored in. */
  lemma {:induction false} UpsertedValue(c: Collection, chunks: seq<Chunk>, whole: Collection)
    requires forall x :: x in chunks ==> x.id in whole && whole[x.id] == x
    requires forall id :: id in c ==> id in whole && c[id] == whole[id]
    ensures forall id :: id in UpsertAll(c, chunks) ==> id in whole && UpsertAll(c, chunks)[id] == whole[id]
  {
    if chunks != [] {
      UpsertedValue(c, chunks[..|chunks| - 1], whole);
      assert chunks[|chunks| - 1] in chunks;
    }
  }

  lemma {:induction false} FoundUnderOwnId(chunks: seq<Chunk>, x: Chunk)
    requires DistinctIds(chunks) && x in chunks
    ensures x.id in UpsertAll(map[], chunks) && UpsertAll(map[], chunks)[x.id] == x
  {
    var front, last := chunks[..|chunks| - 1], chunks[|chunks| - 1];
    if x != last {
      var i :| 0 <= i < |chunks| && chunks[i] == x;
      assert front[i] == x;
      FoundUnderOwnId(front, x);
    }
  }

  lemma PartGrows(c: Collection, chunks: seq<Chunk>, done: nat, end: nat, kept: seq<Chunk>)
    requires done <= end <= |chunks| && PartOf(c, chunks[..done])
    requires forall x :: x in kept ==> x in chunks[done..end]
    ensures PartOf(UpsertAll(c, kept), chunks[..end]) && PartOf(UpsertAll(c, kept), chunks) && PartOf(c, chunks)
  {
    SliceOf(chunks, done, end);
    assert chunks[..end][..done] == chunks[..done];
    PartGrowsTo(c, chunks[..end], done, kept);
    PartGrowsTo(c, chunks, done, kept);
    assert UpsertAll(c, []) == c;
    PartGrowsTo(c, chunks, done, []);
  }

  lemma SliceOf(chunks: seq<Chunk>, done: nat, end: nat)
    requires done <= end <= |chunks|
    ensures forall x :: x in chunks[done..end] ==> x in chunks[..end] && x in chunks
  {
    forall x | x in chunks[done..end] ensures x in chunks[..end] && x in chunks {
      var i :| 0 <= i < end - done && chunks[done..end][i] == x;
      assert chunks[..end][done + i] == x && chunks[done + i] == x;
    }
  }

  lemma PartGrowsTo(c: Collection, chunks: seq<Chunk>, done: nat, kept: seq<Chunk>)
    requires done <= |chunks| && PartOf(c, chunks[..done])
    requires forall x :: x in kept ==> x in chunks
    ensures PartOf(UpsertAll(c, kept), chunks)
  {
    if DistinctIds(chunks) {
      var whole := UpsertAll(map[], chunks);
      forall x | x in chunks ensures x.id in whole && whole[x.id] == x { FoundUnderOwnId(chunks, x); }
      assert DistinctIds(chunks[..done]);
      UpsertedValue(map[], chunks[..done], whole);
      UpsertedValue(c, kept, whole);
    }
  }

  // ---------------------------------------------------------------- histories

  /** One attempt at a rebuild, cut short after `survives` of the states it reached (or not at all). */
  datatype Try = Try(chunks: seq<Chunk>, generation: Generation, survives: Option<nat>)

  /** Over any sequence of rebuilds of any inputs, with faults and crashes anywhere, no state ever had a
      manifest describing a different collection. */
  method History(store: IndexStore, tries: seq<Try>)
    requires store.Safe()
    modifies store
    ensures store.Safe() && old(store.trace) <= store.trace
  {
    hide Trusted, Consistent, Published;
    for i := 0 to |tries|
      invariant store.Safe() && old(store.trace) <= store.trace
    {
      var start := |store.trace|;
      var _ := store.Rebuild(tries[i].chunks, tries[i].generation);
      if tries[i].survives.Some? {
        store.Crash(start - 1 + Min(tries[i].survives.value, |store.trace| - start));
      }
    }
  }
}
