/** The revisioned collections fixture (frontend/e2e/fixtures.ts, handleCollectionsFixture): optimistic
    concurrency with tombstones, the style of RFC 9110 section 13.1.1 with the revision carried in the body
    or the query. Identifiers are numbers; col-n, itm-n and note-n are n. */
module Collections {
  import opened Outcomes

  datatype Item = Item(id: int, kind: string, citation: string, revision: int)
  datatype Note = Note(id: int, text: string, revision: int)
  datatype Activity = Activity(number: nat, entity: string, entityId: int, event: string)

  /** A collection's own fields: what PATCH and DELETE are about. */
  datatype Own = Own(name: string, description: string, tags: seq<string>, favorite: bool, private_: bool,
                     revision: int, deleted: bool)

  datatype Collection = Collection(id: int, own: Own, items: seq<Item>, notes: seq<Note>, activity: seq<Activity>)

  /** The fields a PATCH may carry. */
  datatype Change = Change(name: Option<string>, description: Option<string>, tags: Option<seq<string>>,
                           favorite: Option<bool>, private_: Option<bool>)

  /** A revision is None when what was sent is not a number; a missing query revision reads as zero. */
  datatype Request =
    | Read(shown: Option<int>)                       // any GET route; None lists the collections
    | Create(own: Own)
    | Patch(target: int, revision: Option<int>, change: Change)
    | Delete(target: int, revision: Option<int>)
    | AddItem(target: int, kind: string, citation: string, hasIdentity: bool)
    | DeleteItem(target: int, item: int, revision: Option<int>)
    | AddNote(target: int, text: string)
    | PatchNote(target: int, note: int, revision: Option<int>, newText: Option<string>)
    | DeleteNote(target: int, note: int, revision: Option<int>)

  /** A refusal carries its HTTP status; everything else is answered 200. */
  datatype Reply = Accepted | Refused(status: int)

  function Or<T>(o: Option<T>, default: T): T { if o.Some? then o.value else default }

  function Changed(own: Own, c: Change): Own {
    Own(Or(c.name, own.name), Or(c.description, own.description), Or(c.tags, own.tags),
        Or(c.favorite, own.favorite), Or(c.private_, own.private_), own.revision + 1, own.deleted)
  }

  function Logged(e: Collection, entity: string, entityId: int, event: string): seq<Activity> {
    e.activity + [Activity(|e.activity| + 1, entity, entityId, event)]
  }

  /** The first element with this id. */
  function FindBy<T>(s: seq<T>, idOf: T -> int, id: int): (r: Option<nat>)
    ensures r.Some? ==> r.value < |s| && idOf(s[r.value]) == id && forall k :: 0 <= k < r.value ==> idOf(s[k]) != id
    ensures r.None? ==> forall k :: 0 <= k < |s| ==> idOf(s[k]) != id
  {
    if s == [] then None
    else if idOf(s[0]) == id then Some(0)
    else
      var rest := FindBy(s[1..], idOf, id);
      if rest.Some? then Some(rest.value + 1) else None
  }

  /** The elements with another id, in order. */
  function WithoutId<T(!new)>(s: seq<T>, idOf: T -> int, id: int): (r: seq<T>)
    ensures forall x :: x in r <==> x in s && idOf(x) != id
  {
    if s == [] then [] else (if idOf(s[0]) == id then [] else [s[0]]) + WithoutId(s[1..], idOf, id)
  }

  const COLLECTION_ID := (c: Collection) => c.id
  const ITEM_ID := (i: Item) => i.id
  const NOTE_ID := (n: Note) => n.id

  // ---------------------------------------------------------------- what one request may do

  predicate Mutates(r: Request) { r.Patch? || r.Delete? }

  /** The position of the collection the request would write to. */
  function Written(s: seq<Collection>, r: Request): Option<nat> {
    if r.Read? || r.Create? then None else FindBy(s, COLLECTION_ID, r.target)
  }

  /** What an accepted PATCH or DELETE makes of the collection's own fields. */
  function Applied(own: Own, r: Request): Own
    requires Mutates(r)
  {
    if r.Patch? then Changed(own, r.change) else own.(revision := own.revision + 1, deleted := true)
  }

  function ItemsAfter(a: Collection, r: Request): seq<Item> {
    match r
    case AddItem(_, kind, citation, _) => a.items + [Item(|a.items| + 1, kind, citation, 1)]
    case DeleteItem(_, item, _) => WithoutId(a.items, ITEM_ID, item)
    case _ => a.items
  }

  function NotesAfter(a: Collection, r: Request): seq<Note> {
    match r
    case AddNote(_, text) => a.notes + [Note(|a.notes| + 1, text, 1)]
    case PatchNote(_, note, _, newText) =>
      var m := FindBy(a.notes, NOTE_ID, note);
      if m.None? then a.notes
      else
        var n := a.notes[m.value];
        a.notes[m.value := Note(n.id, Or(newText, n.text), n.revision + 1)]
    case DeleteNote(_, note, _) => WithoutId(a.notes, NOTE_ID, note)
    case _ => a.notes
  }

  function ActivityAfter(a: Collection, r: Request): seq<Activity> {
    match r
    case Patch(_, _, _) => Logged(a, "collection", a.id, "collection_updated")
    case AddItem(_, _, _, _) => Logged(a, "item", |a.items| + 1, "item_added")
    case DeleteItem(_, item, _) => Logged(a, "item", item, "item_removed")
    case AddNote(_, _) => Logged(a, "note", |a.notes| + 1, "note_added")
    case PatchNote(_, note, _, _) => Logged(a, "note", note, "note_updated")
    case DeleteNote(_, note, _) => Logged(a, "note", note, "note_removed")
    case _ => a.activity
  }

  /** What an accepted request does to the collection it writes to. */
  predicate Wrote(a: Collection, b: Collection, r: Request) {
    && (Mutates(r) ==> r.revision == Some(a.own.revision) && !a.own.deleted)
    && b == Collection(a.id, if Mutates(r) then Applied(a.own, r) else a.own,
                       ItemsAfter(a, r), NotesAfter(a, r), ActivityAfter(a, r))
  }

  function Created(id: int, own: Own): Collection {
    Collection(id, own.(revision := 1, deleted := false), [], [], [Activity(1, "collection", id, "collection_created")])
  }

  /** One request, answered: a refusal and a read change nothing, a creation appends one collection, and
      everything else writes to exactly one. */
  ghost predicate Served(a: seq<Collection>, b: seq<Collection>, r: Request, reply: Reply) {
    if reply.Refused? || r.Read? then b == a
    else if r.Create? then b == a + [Created(|a| + 1, r.own)]
    else
      && Written(a, r).Some?
      && |b| == |a|
      && b == a[Written(a, r).value := b[Written(a, r).value]]
      && Wrote(a[Written(a, r).value], b[Written(a, r).value], r)
  }

  // ---------------------------------------------------------------- what the caller is told

  /** Position i is the first with this identifier. */
  ghost predicate FirstCollection(s: seq<Collection>, id: int, i: int) {
    0 <= i < |s| && s[i].id == id && forall k :: 0 <= k < i ==> s[k].id != id
  }

  ghost predicate FirstItem(s: seq<Item>, id: int, i: int) {
    0 <= i < |s| && s[i].id == id && forall k :: 0 <= k < i ==> s[k].id != id
  }

  ghost predicate FirstNote(s: seq<Note>, id: int, i: int) {
    0 <= i < |s| && s[i].id == id && forall k :: 0 <= k < i ==> s[k].id != id
  }

  /** The collection asked for, or the item or note in it, is not there. */
  ghost predicate Missing(s: seq<Collection>, r: Request) {
    match r
    case Read(shown) => shown.Some? && forall i :: !FirstCollection(s, shown.value, i)
    case Create(_) => false
    case DeleteItem(target, item, _) => forall i, j :: FirstCollection(s, target, i) ==> !FirstItem(s[i].items, item, j)
    case PatchNote(target, note, _, _) => forall i, j :: FirstCollection(s, target, i) ==> !FirstNote(s[i].notes, note, j)
    case DeleteNote(target, note, _) => forall i, j :: FirstCollection(s, target, i) ==> !FirstNote(s[i].notes, note, j)
    case _ => forall i :: !FirstCollection(s, r.target, i)
  }

  /** The collection asked for carries a tombstone, and the request looks at it. */
  ghost predicate Gone(s: seq<Collection>, r: Request) {
    match r
    case Read(shown) => shown.Some? && exists i :: FirstCollection(s, shown.value, i) && s[i].own.deleted
    case Patch(target, _, _) => exists i :: FirstCollection(s, target, i) && s[i].own.deleted
    case Delete(target, _) => exists i :: FirstCollection(s, target, i) && s[i].own.deleted
    case AddItem(target, _, _, _) => exists i :: FirstCollection(s, target, i) && s[i].own.deleted
    case AddNote(target, _) => exists i :: FirstCollection(s, target, i) && s[i].own.deleted
    case _ => false
  }

  /** The revision named is not that of the collection, item or note to be changed. */
  ghost predicate Stale(s: seq<Collection>, r: Request) {
    match r
    case Patch(target, revision, _) => exists i :: FirstCollection(s, target, i) && revision != Some(s[i].own.revision)
    case Delete(target, revision) => exists i :: FirstCollection(s, target, i) && revision != Some(s[i].own.revision)
    case DeleteItem(target, item, revision) =>
      exists i, j :: FirstCollection(s, target, i) && FirstItem(s[i].items, item, j) && revision != Some(s[i].items[j].revision)
    case PatchNote(target, note, revision, _) =>
      exists i, j :: FirstCollection(s, target, i) && FirstNote(s[i].notes, note, j) && revision != Some(s[i].notes[j].revision)
    case DeleteNote(target, note, revision) =>
      exists i, j :: FirstCollection(s, target, i) && FirstNote(s[i].notes, note, j) && revision != Some(s[i].notes[j].revision)
    case _ => false
  }

  /** An addition without the identity or the text it needs. */
  predicate Bare(r: Request) { (r.AddItem? && !r.hasIdentity) || (r.AddNote? && r.text == "") }

  /** When a refusal a test forces is looked at: before everything for a listing, a creation, a change of a
      collection and the removal of an item, behind the search for the collection for an addition, behind the
      search for the note for a note, and never for the reading of one collection. */
  ghost predicate ForcedNow(s: seq<Collection>, r: Request) {
    match r
    case Read(shown) => shown.None?
    case AddItem(_, _, _, _) => !Missing(s, r) && !Gone(s, r)
    case AddNote(_, _) => !Missing(s, r) && !Gone(s, r)
    case PatchNote(_, _, _, _) => !Missing(s, r)
    case DeleteNote(_, _, _) => !Missing(s, r)
    case _ => true
  }

  /** Accepted exactly when nothing speaks against it, and otherwise refused for what is wrong first: what a test
      forces, what is missing (404), a tombstone (410), an addition without what it needs (422), a stale
      revision (409). */
  ghost predicate Decided(s: seq<Collection>, r: Request, forced: Option<int>, reply: Reply) {
    && (reply.Accepted? <==>
          !(forced.Some? && ForcedNow(s, r)) && !Missing(s, r) && !Gone(s, r) && !Stale(s, r) && !Bare(r))
    && (reply.Refused? ==>
          reply.status ==
            if forced.Some? && ForcedNow(s, r) then forced.value
            else if Missing(s, r) then 404 else if Gone(s, r) then 410 else if Bare(r) then 422 else 409)
  }

  /** What becomes of the collection an accepted request is about, field by field. */
  ghost predicate Effect(a: Collection, b: Collection, r: Request) {
    && b.id == a.id
    && (!r.Patch? && !r.Delete? ==> b.own == a.own)
    && (!r.AddItem? && !r.DeleteItem? ==> b.items == a.items)
    && (!r.AddNote? && !r.PatchNote? && !r.DeleteNote? ==> b.notes == a.notes)
    && (r.Delete? ==> b.activity == a.activity)
    && (!r.Delete? ==> |b.activity| == |a.activity| + 1 && b.activity[..|a.activity|] == a.activity)
    && match r
       case Patch(_, _, c) =>
         && b.own.name == (if c.name.Some? then c.name.value else a.own.name)
         && b.own.description == (if c.description.Some? then c.description.value else a.own.description)
         && b.own.tags == (if c.tags.Some? then c.tags.value else a.own.tags)
         && b.own.favorite == (if c.favorite.Some? then c.favorite.value else a.own.favorite)
         && b.own.private_ == (if c.private_.Some? then c.private_.value else a.own.private_)
         && b.own.revision == a.own.revision + 1 && b.own.deleted == a.own.deleted
         && b.activity[|a.activity|] == Activity(|a.activity| + 1, "collection", a.id, "collection_updated")
       case Delete(_, _) => b.own == a.own.(deleted := true, revision := a.own.revision + 1)
       case AddItem(_, kind, citation, _) =>
         && b.items == a.items + [Item(|a.items| + 1, kind, citation, 1)]
         && b.activity[|a.activity|] == Activity(|a.activity| + 1, "item", |a.items| + 1, "item_added")
       case DeleteItem(_, item, _) =>
         && Dropped(a.items, b.items, (x: Item) => x.id == item)
         && b.activity[|a.activity|] == Activity(|a.activity| + 1, "item", item, "item_removed")
       case AddNote(_, text) =>
         && b.notes == a.notes + [Note(|a.notes| + 1, text, 1)]
         && b.activity[|a.activity|] == Activity(|a.activity| + 1, "note", |a.notes| + 1, "note_added")
       case PatchNote(_, note, _, text) =>
         && (forall i :: FirstNote(a.notes, note, i) ==>
               b.notes == a.notes[i := Note(note, if text.Some? then text.value else a.notes[i].text, a.notes[i].revision + 1)])
         && b.activity[|a.activity|] == Activity(|a.activity| + 1, "note", note, "note_updated")
       case DeleteNote(_, note, _) =>
         && Dropped(a.notes, b.notes, (x: Note) => x.id == note)
         && b.activity[|a.activity|] == Activity(|a.activity| + 1, "note", note, "note_removed")
       case _ => true
  }

  /** Taken from the end, each element is either picked and gone, or is the next one that is left. */
  ghost predicate Dropped<T(!new)>(a: seq<T>, b: seq<T>, picked: T -> bool)
    decreases |a|
  {
    if a == [] then b == []
    else
      var n, m := |a| - 1, |b| - 1;
      if picked(a[n]) then Dropped(a[..n], b, picked)
      else b != [] && b[m] == a[n] && Dropped(a[..n], b[..m], picked)
  }

  lemma {:induction false} WithoutIdDrops<T(!new)>(s: seq<T>, idOf: T -> int, id: int, picked: T -> bool)
    requires forall x :: picked(x) <==> idOf(x) == id
    ensures Dropped(s, WithoutId(s, idOf, id), picked)
    decreases |s|
  {
    if s != [] {
      var n := |s| - 1;
      var b := WithoutId(s[..n], idOf, id);
      WithoutIdDrops(s[..n], idOf, id, picked);
      WithoutLast(s, idOf, id);
      hide WithoutId;
      assert b + [] == b && (b + [s[n]])[..|b|] == b;
    }
  }

  lemma Regrouped<T>(a: seq<T>, b: seq<T>, c: seq<T>)
    ensures a + (b + c) == a + b + c
  {
  }

  lemma {:induction false} WithoutLast<T(!new)>(s: seq<T>, idOf: T -> int, id: int)
    requires s != []
    ensures var n := |s| - 1;
            WithoutId(s, idOf, id) == WithoutId(s[..n], idOf, id) + if idOf(s[n]) == id then [] else [s[n]]
  {
    var n := |s| - 1;
    if n == 0 {
      assert s == [s[0]] && s[..0] == [] && s[1..] == [];
    } else {
      WithoutLast(s[1..], idOf, id);
      assert s[1..][..n - 1] == s[..n][1..] && s[..n][0] == s[0];
      Regrouped(if idOf(s[0]) == id then [] else [s[0]], WithoutId(s[..n][1..], idOf, id), if idOf(s[n]) == id then [] else [s[n]]);
    }
  }

  lemma WroteEffect(a: Collection, b: Collection, r: Request)
    requires Wrote(a, b, r) && !r.Read? && !r.Create?
    ensures Effect(a, b, r)
  {
    match r
    case DeleteItem(_, item, _) => WithoutIdDrops(a.items, ITEM_ID, item, (x: Item) => x.id == item);
    case DeleteNote(_, note, _) => WithoutIdDrops(a.notes, NOTE_ID, note, (x: Note) => x.id == note);
    case PatchNote(_, note, _, _) =>
      forall i | FirstNote(a.notes, note, i) ensures FindBy(a.notes, NOTE_ID, note) == Some(i) {
      }
    case _ =>
  }

  lemma FoundCollection(s: seq<Collection>, id: int)
    ensures forall i :: FirstCollection(s, id, i) <==> FindBy(s, COLLECTION_ID, id) == Some(i)
  {
  }

  lemma FoundItem(s: seq<Item>, id: int)
    ensures forall i :: FirstItem(s, id, i) <==> FindBy(s, ITEM_ID, id) == Some(i)
  {
  }

  lemma FoundNote(s: seq<Note>, id: int)
    ensures forall i :: FirstNote(s, id, i) <==> FindBy(s, NOTE_ID, id) == Some(i)
  {
  }

  /** What an exchange does to the server: nothing when it is refused or only reads, one more collection for a
      creation, and otherwise exactly its effect on the one collection it is about. */
  ghost predicate Outcome(a: seq<Collection>, b: seq<Collection>, r: Request, reply: Reply) {
    && (reply.Refused? || r.Read? ==> b == a)
    && (reply.Accepted? && r.Create? ==>
          b == a + [Collection(|a| + 1, r.own.(revision := 1, deleted := false), [], [],
                               [Activity(1, "collection", |a| + 1, "collection_created")])])
    && (reply.Accepted? && !r.Read? && !r.Create? ==>
          |b| == |a| && forall i :: FirstCollection(a, r.target, i) ==>
            Effect(a[i], b[i], r) && forall k :: 0 <= k < |a| && k != i ==> b[k] == a[k])
  }

  lemma ServedOutcome(a: seq<Collection>, b: seq<Collection>, r: Request, reply: Reply)
    requires Served(a, b, r, reply)
    ensures Outcome(a, b, r, reply)
  {
    if reply.Accepted? && !r.Read? && !r.Create? {
      var at := Written(a, r).value;
      WroteEffect(a[at], b[at], r);
      forall i | FirstCollection(a, r.target, i) ensures i == at {
      }
    }
  }

  class Server {
    var collections: seq<Collection>
    /** Every request in order, whatever its answer. */
    var requests: seq<Request>
    /** The status a test forces an operation to be refused with. */
    const forced: Request -> Option<int>

    constructor (collections: seq<Collection>, forced: Request -> Option<int>)
      ensures this.collections == collections && this.forced == forced && requests == []
    {
      this.collections, this.forced, requests := collections, forced, [];
    }

    /** Which refusal applies first, for each kind of request: a tombstone hides a collection from reads and
        from additions, but not from the requests that name an item or a note by its own revision. */
    function Answer(s: seq<Collection>, r: Request): Reply {
      var at := Written(s, r);
      if r.Read? then
        (if r.shown.None? then Forced(r, Accepted)
         else
           var shown := FindBy(s, COLLECTION_ID, r.shown.value);
           if shown.None? then Refused(404) else if s[shown.value].own.deleted then Refused(410) else Accepted)
      else if r.Create? then Forced(r, Accepted)
      else if r.Patch? || r.Delete? then
        Forced(r, if at.None? then Refused(404)
                  else if s[at.value].own.deleted then Refused(410)
                  else if r.revision != Some(s[at.value].own.revision) then Refused(409) else Accepted)
      else if r.DeleteItem? then
        Forced(r, if at.None? then Refused(404)
                  else
                    var items := s[at.value].items;
                    var m := FindBy(items, ITEM_ID, r.item);
                    if m.None? then Refused(404)
                    else if r.revision != Some(items[m.value].revision) then Refused(409) else Accepted)
      else if at.None? then Refused(404)
      else if r.AddItem? || r.AddNote? then
        (if s[at.value].own.deleted then Refused(410)
         else Forced(r, if (if r.AddItem? then r.hasIdentity else r.text != []) then Accepted else Refused(422)))
      else
        var notes := s[at.value].notes;
        var m := FindBy(notes, NOTE_ID, r.note);
        if m.None? then Refused(404)
        else Forced(r, if r.revision != Some(notes[m.value].revision) then Refused(409) else Accepted)
    }

    lemma AnswerDecided(s: seq<Collection>, r: Request)
      ensures Decided(s, r, forced(r), Answer(s, r))
    {
      if r.DeleteItem? {
        ItemDecided(s, r);
      } else if r.PatchNote? || r.DeleteNote? {
        NoteDecided(s, r);
      } else {
        CollectionDecided(s, r);
      }
    }

    lemma CollectionDecided(s: seq<Collection>, r: Request)
      requires !r.DeleteItem? && !r.PatchNote? && !r.DeleteNote?
      ensures Decided(s, r, forced(r), Answer(s, r))
    {
      var id := if r.Read? then Or(r.shown, 0) else if r.Create? then 0 else r.target;
      FoundCollection(s, id);
    }

    lemma ItemDecided(s: seq<Collection>, r: Request)
      requires r.DeleteItem?
      ensures Decided(s, r, forced(r), Answer(s, r))
    {
      FoundCollection(s, r.target);
      var at := FindBy(s, COLLECTION_ID, r.target);
      hide FirstCollection, FirstItem;
      if at.Some? { FoundItem(s[at.value].items, r.item); }
    }

    lemma NoteDecided(s: seq<Collection>, r: Request)
      requires r.PatchNote? || r.DeleteNote?
      ensures Decided(s, r, forced(r), Answer(s, r))
    {
      FoundCollection(s, r.target);
      var at := FindBy(s, COLLECTION_ID, r.target);
      hide FirstCollection, FirstNote;
      if at.Some? { FoundNote(s[at.value].notes, r.note); }
    }

    /** A forced refusal comes before this answer. */
    function Forced(r: Request, otherwise: Reply): Reply {
      if forced(r).Some? then Refused(forced(r).value) else otherwise
    }

    /** PATCH and DELETE of a collection. */
    method ChangeCollection(r: Request) returns (reply: Reply)
      requires Mutates(r)
      modifies this`collections
      ensures Served(old(collections), collections, r, reply)
      ensures reply == Answer(old(collections), r)
    {
      if forced(r).Some? { return Refused(forced(r).value); }
      var at := FindBy(collections, COLLECTION_ID, r.target);
      if at.None? { return Refused(404); }
      var e := collections[at.value];
      if e.own.deleted { return Refused(410); }
      if r.revision != Some(e.own.revision) { return Refused(409); }
      if r.Patch? {
        var own := e.own.(name := Or(r.change.name, e.own.name), description := Or(r.change.description, e.own.description),
                          tags := Or(r.change.tags, e.own.tags), favorite := Or(r.change.favorite, e.own.favorite),
                          private_ := Or(r.change.private_, e.own.private_), revision := e.own.revision + 1);
        e := e.(own := own, activity := Logged(e, "collection", e.id, "collection_updated"));
      } else {
        e := e.(own := e.own.(deleted := true, revision := e.own.revision + 1));
      }
      collections := collections[at.value := e];
      reply := Accepted;
    }

    /** Adding an item or a note: refused for a tombstoned collection, before anything else. */
    method Add(r: Request) returns (reply: Reply)
      requires r.AddItem? || r.AddNote?
      modifies this`collections
      ensures Served(old(collections), collections, r, reply)
      ensures reply == Answer(old(collections), r)
    {
      var at := FindBy(collections, COLLECTION_ID, r.target);
      if at.None? { return Refused(404); }
      var e := collections[at.value];
      if e.own.deleted { return Refused(410); }
      if forced(r).Some? { return Refused(forced(r).value); }
      if r.AddItem? {
        if !r.hasIdentity { return Refused(422); }
        var id := |e.items| + 1;
        e := e.(items := e.items + [Item(id, r.kind, r.citation, 1)], activity := Logged(e, "item", id, "item_added"));
      } else {
        if r.text == [] { return Refused(422); }
        var id := |e.notes| + 1;
        e := e.(notes := e.notes + [Note(id, r.text, 1)], activity := Logged(e, "note", id, "note_added"));
      }
      collections := collections[at.value := e];
      reply := Accepted;
    }

    /** Removing an item. The collection's tombstone is not looked at. */
    method RemoveItem(r: Request) returns (reply: Reply)
      requires r.DeleteItem?
      modifies this`collections
      ensures Served(old(collections), collections, r, reply)
      ensures reply == Answer(old(collections), r)
    {
      if forced(r).Some? { return Refused(forced(r).value); }
      var at := FindBy(collections, COLLECTION_ID, r.target);
      if at.None? { return Refused(404); }
      var e := collections[at.value];
      var m := FindBy(e.items, ITEM_ID, r.item);
      if m.None? { return Refused(404); }
      if r.revision != Some(e.items[m.value].revision) { return Refused(409); }
      e := e.(items := WithoutId(e.items, ITEM_ID, r.item), activity := Logged(e, "item", r.item, "item_removed"));
      collections := collections[at.value := e];
      reply := Accepted;
    }

    /** Changing or removing a note. The collection's tombstone is not looked at. */
    method ChangeNote(r: Request) returns (reply: Reply)
      requires r.PatchNote? || r.DeleteNote?
      modifies this`collections
      ensures Served(old(collections), collections, r, reply)
      ensures reply == Answer(old(collections), r)
    {
      var at := FindBy(collections, COLLECTION_ID, r.target);
      if at.None? { return Refused(404); }
      var e := collections[at.value];
      var m := FindBy(e.notes, NOTE_ID, r.note);
      if m.None? { return Refused(404); }
      if forced(r).Some? { return Refused(forced(r).value); }
      var note := e.notes[m.value];
      if r.revision != Some(note.revision) { return Refused(409); }
      if r.PatchNote? {
        note := note.(text := Or(r.newText, note.text), revision := note.revision + 1);
        e := e.(notes := e.notes[m.value := note], activity := Logged(e, "note", r.note, "note_updated"));
      } else {
        e := e.(notes := WithoutId(e.notes, NOTE_ID, r.note), activity := Logged(e, "note", r.note, "note_removed"));
      }
      collections := collections[at.value := e];
      reply := Accepted;
    }

    method Serve(r: Request) returns (reply: Reply)
      modifies this
      ensures requests == old(requests) + [r]
      ensures Served(old(collections), collections, r, reply)
      ensures reply == Answer(old(collections), r)
      ensures Decided(old(collections), r, forced(r), reply)
      ensures Outcome(old(collections), collections, r, reply)
    {
      ghost var before := collections;
      reply := Handle(r);
      AnswerDecided(before, r);
      ServedOutcome(before, collections, r, reply);
    }

    /** The handler's branches. */
    method Handle(r: Request) returns (reply: Reply)
      modifies this
      ensures requests == old(requests) + [r]
      ensures Served(old(collections), collections, r, reply)
      ensures reply == Answer(old(collections), r)
    {
      requests := requests + [r];
      match r
      case Read(None) =>
        reply := if forced(r).Some? then Refused(forced(r).value) else Accepted;
      case Read(Some(id)) =>
        var at := FindBy(collections, COLLECTION_ID, id);
        reply := if at.None? then Refused(404) else if collections[at.value].own.deleted then Refused(410) else Accepted;
      case Create(own) =>
        if forced(r).Some? { return Refused(forced(r).value); }
        var id := |collections| + 1;
        collections := collections + [Collection(id, own.(revision := 1, deleted := false), [], [],
                                                 [Activity(1, "collection", id, "collection_created")])];
        reply := Accepted;
      case Patch(_, _, _) => reply := ChangeCollection(r);
      case Delete(_, _) => reply := ChangeCollection(r);
      case AddItem(_, _, _, _) => reply := Add(r);
      case AddNote(_, _) => reply := Add(r);
      case DeleteItem(_, _, _) => reply := RemoveItem(r);
      case PatchNote(_, _, _, _) => reply := ChangeNote(r);
      case DeleteNote(_, _, _) => reply := ChangeNote(r);
    }

    /** A whole run of requests, with the state before and after each of them. */
    method ServeAll(rs: seq<Request>) returns (trace: seq<Exchange>, ghost states: seq<seq<Collection>>)
      modifies this
      ensures requests == old(requests) + rs
      ensures |trace| == |rs| && forall k :: 0 <= k < |rs| ==> trace[k].request == rs[k]
      ensures Chain(states, trace) && states[0] == old(collections) && states[|rs|] == collections
    {
      hide Answer, Served, Decided, Outcome;
      trace, states := [], [collections];
      for n := 0 to |rs|
        invariant requests == old(requests) + rs[..n]
        invariant |trace| == n && forall k :: 0 <= k < n ==> trace[k].request == rs[k]
        invariant Chain(states, trace) && states[0] == old(collections) && states[n] == collections
      {
        var reply := Serve(rs[n]);
        assert rs[..n + 1] == rs[..n] + [rs[n]];
        trace, states := trace + [Exchange(rs[n], reply)], states + [collections];
      }
      assert rs[..|rs|] == rs;
    }
  }

  // ---------------------------------------------------------------- laws of every run

  datatype Exchange = Exchange(request: Request, reply: Reply)

  /** The states around every exchange of a run. */
  ghost predicate Chain(states: seq<seq<Collection>>, trace: seq<Exchange>) {
    && |states| == |trace| + 1
    && forall k :: 0 <= k < |trace| ==> Served(states[k], states[k + 1], trace[k].request, trace[k].reply)
  }

  /** The k-th exchange is a PATCH or DELETE of collection i that was accepted. */
  ghost predicate Wins(states: seq<seq<Collection>>, trace: seq<Exchange>, i: nat, k: nat)
    requires k < |trace| <= |states|
  {
    trace[k].reply.Accepted? && Mutates(trace[k].request) && Written(states[k], trace[k].request) == Some(i)
  }

  /** The accepted PATCH and DELETE requests of collection i, among the first n exchanges. */
  ghost function Winners(states: seq<seq<Collection>>, trace: seq<Exchange>, i: nat, n: nat): seq<Request>
    requires n <= |trace| <= |states|
    ensures forall j :: 0 <= j < |Winners(states, trace, i, n)| ==> Mutates(Winners(states, trace, i, n)[j])
  {
    if n == 0 then []
    else Winners(states, trace, i, n - 1) + if Wins(states, trace, i, n - 1) then [trace[n - 1].request] else []
  }

  /** The own fields after these requests, each applied to what the one before it left. */
  function AppliedAll(own: Own, rs: seq<Request>): Own
    requires forall j :: 0 <= j < |rs| ==> Mutates(rs[j])
  {
    if rs == [] then own else Applied(AppliedAll(own, rs[..|rs| - 1]), rs[|rs| - 1])
  }

  /** One exchange leaves a collection its identity and its log, and its own fields unless it wins. */
  lemma OneExchange(a: seq<Collection>, b: seq<Collection>, x: Exchange, i: nat)
    requires i < |a| && Served(a, b, x.request, x.reply)
    ensures i < |b| && b[i].id == a[i].id && a[i].activity <= b[i].activity
    ensures !(x.reply.Accepted? && Mutates(x.request) && Written(a, x.request) == Some(i)) ==> b[i].own == a[i].own
    ensures x.reply.Accepted? && Mutates(x.request) && Written(a, x.request) == Some(i) ==>
              !a[i].own.deleted && x.request.revision == Some(a[i].own.revision) && b[i].own == Applied(a[i].own, x.request)
  {
    if x.reply.Accepted? && x.request.Create? {
      assert b[..|a|][i] == a[i];
    }
  }

  /** Request j of a run of accepted changes names revision first + j. */
  ghost predicate Consecutive(rs: seq<Request>, first: int) {
    forall j :: 0 <= j < |rs| ==> Mutates(rs[j]) && rs[j].revision == Some(first + j)
  }

  /** No lost update: the accepted changes consume the revisions r, r+1, r+2, ... in order, the collection is
      left at r plus their number, and its fields are what they make of it one after the other. */
  lemma {:induction false} NoLostUpdate(states: seq<seq<Collection>>, trace: seq<Exchange>, i: nat, n: nat)
    requires Chain(states, trace) && i < |states[0]| && n <= |trace|
    ensures i < |states[n]|
    ensures Consecutive(Winners(states, trace, i, n), states[0][i].own.revision)
    ensures states[n][i].own.revision == states[0][i].own.revision + |Winners(states, trace, i, n)|
    ensures states[n][i].own == AppliedAll(states[0][i].own, Winners(states, trace, i, n))
  {
    if n > 0 {
      NoLostUpdate(states, trace, i, n - 1);
      assert Served(states[n - 1], states[n], trace[n - 1].request, trace[n - 1].reply);
      OneExchange(states[n - 1], states[n], trace[n - 1], i);
      OneMoreWinner(states, trace, i, n);
    }
  }

  lemma OneMoreWinner(states: seq<seq<Collection>>, trace: seq<Exchange>, i: nat, n: nat)
    requires 0 < n <= |trace| <= |states|
    ensures !Wins(states, trace, i, n - 1) ==> Winners(states, trace, i, n) == Winners(states, trace, i, n - 1)
    ensures Wins(states, trace, i, n - 1) ==>
              Winners(states, trace, i, n) == Winners(states, trace, i, n - 1) + [trace[n - 1].request]
    ensures forall own :: Wins(states, trace, i, n - 1) ==>
              AppliedAll(own, Winners(states, trace, i, n)) == Applied(AppliedAll(own, Winners(states, trace, i, n - 1)), trace[n - 1].request)
  {
    var before, after := Winners(states, trace, i, n - 1), Winners(states, trace, i, n);
    if Wins(states, trace, i, n - 1) {
      assert after[..|after| - 1] == before;
    }
  }

  /** Two writers that read the same revision cannot both be accepted. */
  lemma OneWinnerPerRevision(states: seq<seq<Collection>>, trace: seq<Exchange>, i: nat, j: nat, k: nat)
    requires Chain(states, trace) && i < |states[0]| && j < k < |trace|
    requires Wins(states, trace, i, j) && Wins(states, trace, i, k)
    ensures trace[j].request.revision != trace[k].request.revision
  {
    StillThere(states, trace, i, j);
    StepFacts(states, trace, i, j);
    Between(states, trace, i, j + 1, k);
    StepFacts(states, trace, i, k);
  }

  lemma {:induction false} StillThere(states: seq<seq<Collection>>, trace: seq<Exchange>, i: nat, n: nat)
    requires Chain(states, trace) && i < |states[0]| && n <= |trace|
    ensures i < |states[n]|
  {
    if n > 0 {
      StillThere(states, trace, i, n - 1);
      OneExchange(states[n - 1], states[n], trace[n - 1], i);
    }
  }

  /** What may become of one collection's own fields. */
  ghost predicate OwnStep(a: Collection, b: Collection, r: Request, wins: bool) {
    && b.id == a.id && a.activity <= b.activity
    && (!wins ==> b.own == a.own)
    && (wins ==> !a.own.deleted && b.own.revision == a.own.revision + 1
                 && (r.Patch? || r.Delete?) && r.revision == Some(a.own.revision))
  }

  lemma StepFacts(states: seq<seq<Collection>>, trace: seq<Exchange>, i: nat, k: nat)
    requires Chain(states, trace) && k < |trace| && i < |states[k]|
    ensures i < |states[k + 1]| && OwnStep(states[k][i], states[k + 1][i], trace[k].request, Wins(states, trace, i, k))
  {
    OneExchange(states[k], states[k + 1], trace[k], i);
  }

  /** Between two moments of a run: the revision never falls, the log only grows, and a tombstone is final --
      from then on the own fields never change and no PATCH or DELETE is accepted. */
  lemma {:induction false} Between(states: seq<seq<Collection>>, trace: seq<Exchange>, i: nat, j: nat, k: nat)
    requires Chain(states, trace) && i < |states[0]| && j <= k <= |trace|
    ensures i < |states[j]| && i < |states[k]| && Later(states[j][i], states[k][i])
    ensures states[j][i].own.deleted ==> forall m :: j <= m < k ==> !Wins(states, trace, i, m)
  {
    StillThere(states, trace, i, j);
    if j < k {
      Between(states, trace, i, j, k - 1);
      StepFacts(states, trace, i, k - 1);
      LaterStep(states[j][i], states[k - 1][i], states[k][i], trace[k - 1].request, Wins(states, trace, i, k - 1));
    }
  }

  ghost predicate Later(a: Collection, b: Collection) {
    && b.id == a.id && a.own.revision <= b.own.revision && a.activity <= b.activity
    && (a.own.deleted ==> b.own == a.own)
  }

  lemma LaterStep(a: Collection, b: Collection, c: Collection, r: Request, wins: bool)
    requires Later(a, b) && OwnStep(b, c, r, wins)
    ensures Later(a, c) && (a.own.deleted ==> !wins)
  {
  }

  // ---------------------------------------------------------------- identifiers

  ghost predicate DistinctIds<T>(s: seq<T>, idOf: T -> int) {
    forall i, j :: 0 <= i < j < |s| ==> idOf(s[i]) != idOf(s[j])
  }

  /** A new element whose number is the length of the list it joins keeps the numbers distinct if and only if
      that number is free. */
  lemma AddKeepsDistinctIff<T>(s: seq<T>, x: T, idOf: T -> int)
    requires DistinctIds(s, idOf)
    ensures DistinctIds(s + [x], idOf) <==> FindBy(s, idOf, idOf(x)).None?
  {
    var r := s + [x];
    assert r[|s|] == x && forall i :: 0 <= i < |s| ==> r[i] == s[i];
    var at := FindBy(s, idOf, idOf(x));
    assert at.Some? ==> idOf(r[at.value]) == idOf(r[|s|]);
  }

  lemma {:induction false} WithoutKeepsDistinct<T(!new)>(s: seq<T>, idOf: T -> int, id: int)
    requires DistinctIds(s, idOf)
    ensures DistinctIds(WithoutId(s, idOf, id), idOf)
  {
    if s != [] {
      WithoutKeepsDistinct(s[1..], idOf, id);
      var rest := WithoutId(s[1..], idOf, id);
      forall i | 0 <= i < |rest| ensures idOf(rest[i]) != idOf(s[0]) {
        assert rest[i] in s[1..];
      }
    }
  }

  /** The k-th exchange adds an item to collection i under a number one of its items has. */
  ghost predicate ReusesItemId(states: seq<seq<Collection>>, trace: seq<Exchange>, i: nat, k: nat)
    requires k < |trace| <= |states| && i < |states[k]|
  {
    && trace[k].reply.Accepted? && trace[k].request.AddItem? && Written(states[k], trace[k].request) == Some(i)
    && FindBy(states[k][i].items, ITEM_ID, |states[k][i].items| + 1).Some?
  }

  ghost predicate ReusesNoteId(states: seq<seq<Collection>>, trace: seq<Exchange>, i: nat, k: nat)
    requires k < |trace| <= |states| && i < |states[k]|
  {
    && trace[k].reply.Accepted? && trace[k].request.AddNote? && Written(states[k], trace[k].request) == Some(i)
    && FindBy(states[k][i].notes, NOTE_ID, |states[k][i].notes| + 1).Some?
  }

  /** One exchange keeps the items of a collection distinct exactly when it does not reuse a number. */
  lemma ItemsAfterExchange(states: seq<seq<Collection>>, trace: seq<Exchange>, i: nat, k: nat)
    requires Chain(states, trace) && k < |trace| && i < |states[k]| && i < |states[k + 1]|
    requires DistinctIds(states[k][i].items, ITEM_ID)
    ensures DistinctIds(states[k + 1][i].items, ITEM_ID) <==> !ReusesItemId(states, trace, i, k)
  {
    var a, x := states[k][i], trace[k];
    assert Served(states[k], states[k + 1], x.request, x.reply);
    if x.reply.Accepted? && Written(states[k], x.request) == Some(i) {
      if x.request.AddItem? {
        AddKeepsDistinctIff(a.items, Item(|a.items| + 1, x.request.kind, x.request.citation, 1), ITEM_ID);
      }
      if x.request.DeleteItem? {
        WithoutKeepsDistinct(a.items, ITEM_ID, x.request.item);
      }
    }
  }

  lemma NotesAfterExchange(states: seq<seq<Collection>>, trace: seq<Exchange>, i: nat, k: nat)
    requires Chain(states, trace) && k < |trace| && i < |states[k]| && i < |states[k + 1]|
    requires DistinctIds(states[k][i].notes, NOTE_ID)
    ensures DistinctIds(states[k + 1][i].notes, NOTE_ID) <==> !ReusesNoteId(states, trace, i, k)
  {
    var a, x := states[k][i], trace[k];
    assert Served(states[k], states[k + 1], x.request, x.reply);
    if x.reply.Accepted? && Written(states[k], x.request) == Some(i) {
      if x.request.AddNote? {
        AddKeepsDistinctIff(a.notes, Note(|a.notes| + 1, x.request.text, 1), NOTE_ID);
      }
      if x.request.DeleteNote? {
        WithoutKeepsDistinct(a.notes, NOTE_ID, x.request.note);
      }
    }
  }

  /** Over every run, a collection's items keep distinct numbers throughout if and only if no accepted addition
      reuses a number. */
  lemma {:induction false} ItemIdsDistinctIff(states: seq<seq<Collection>>, trace: seq<Exchange>, i: nat, n: nat)
    requires Chain(states, trace) && i < |states[0]| && n <= |trace| && DistinctIds(states[0][i].items, ITEM_ID)
    ensures forall k :: 0 <= k <= n ==> i < |states[k]|
    ensures (forall k :: 0 <= k <= n ==> DistinctIds(states[k][i].items, ITEM_ID))
            <==> forall k :: 0 <= k < n ==> !ReusesItemId(states, trace, i, k)
  {
    if n > 0 {
      ItemIdsDistinctIff(states, trace, i, n - 1);
      StillThere(states, trace, i, n);
      if DistinctIds(states[n - 1][i].items, ITEM_ID) {
        ItemsAfterExchange(states, trace, i, n - 1);
      }
    }
  }

  /** The same for notes. */
  lemma {:induction false} NoteIdsDistinctIff(states: seq<seq<Collection>>, trace: seq<Exchange>, i: nat, n: nat)
    requires Chain(states, trace) && i < |states[0]| && n <= |trace| && DistinctIds(states[0][i].notes, NOTE_ID)
    ensures forall k :: 0 <= k <= n ==> i < |states[k]|
    ensures (forall k :: 0 <= k <= n ==> DistinctIds(states[k][i].notes, NOTE_ID))
            <==> forall k :: 0 <= k < n ==> !ReusesNoteId(states, trace, i, k)
  {
    if n > 0 {
      NoteIdsDistinctIff(states, trace, i, n - 1);
      StillThere(states, trace, i, n);
      if DistinctIds(states[n - 1][i].notes, NOTE_ID) {
        NotesAfterExchange(states, trace, i, n - 1);
      }
    }
  }

  /** The collection with this identifier is at i, is not deleted, and holds these items. */
  ghost predicate Holds(s: seq<Collection>, id: int, i: nat, items: seq<Item>) {
    i < |s| && FindBy(s, COLLECTION_ID, id) == Some(i) && !s[i].own.deleted && s[i].items == items
  }

  /** And numbers do repeat: on any server with an empty, undeleted collection, two additions, the removal of
      the first item and a third addition leave two items with one number. */
  method ItemIdsCanRepeat(server: Server, id: int, kind: string, citation: string) returns (i: nat)
    requires FindBy(server.collections, COLLECTION_ID, id).Some? && forall r :: server.forced(r).None?
    requires Holds(server.collections, id, FindBy(server.collections, COLLECTION_ID, id).value, [])
    modifies server
    ensures Holds(server.collections, id, i, [Item(2, kind, citation, 1), Item(2, kind, citation, 1)])
    ensures Some(i) == FindBy(old(server.collections), COLLECTION_ID, id)
    ensures !DistinctIds(server.collections[i].items, ITEM_ID)
  {
    i := FindBy(server.collections, COLLECTION_ID, id).value;
    ghost var one, two := Item(1, kind, citation, 1), Item(2, kind, citation, 1);
    AddTo(server, id, i, kind, citation, []);
    assert [] + [one] == [one];
    AddTo(server, id, i, kind, citation, [one]);
    assert [one] + [two] == [one, two];
    RemoveFirst(server, id, i, one, two);
    AddTo(server, id, i, kind, citation, [two]);
    assert [two] + [two] == [two, two];
    ghost var items := server.collections[i].items;
    assert ITEM_ID(items[0]) == ITEM_ID(items[1]);
  }

  method AddTo(server: Server, id: int, i: nat, kind: string, citation: string, ghost items: seq<Item>)
    requires Holds(server.collections, id, i, items) && forall r :: server.forced(r).None?
    modifies server
    ensures Holds(server.collections, id, i, items + [Item(|items| + 1, kind, citation, 1)])
  {
    var _ := server.Serve(AddItem(id, kind, citation, true));
    FindStays(server.collections, id, i);
  }

  method RemoveFirst(server: Server, id: int, i: nat, ghost one: Item, ghost two: Item)
    requires one.id == 1 && one.revision == 1 && two.id == 2
    requires Holds(server.collections, id, i, [one, two]) && forall r :: server.forced(r).None?
    modifies server
    ensures Holds(server.collections, id, i, [two])
  {
    WithoutCons(one, [two], 1);
    WithoutCons(two, [], 1);
    assert [one] + [two] == [one, two] && [two] + [] == [two];
    assert FindBy([one, two], ITEM_ID, 1) == Some(0);
    var _ := server.Serve(DeleteItem(id, 1, Some(1)));
    FindStays(server.collections, id, i);
  }

  lemma FindStays(s: seq<Collection>, id: int, i: nat)
    requires i < |s| && s[i].id == id && forall k :: 0 <= k < i ==> s[k].id != id
    ensures FindBy(s, COLLECTION_ID, id) == Some(i)
  {
    var at := FindBy(s, COLLECTION_ID, id);
    assert COLLECTION_ID(s[i]) == id;
    assert at.Some? && COLLECTION_ID(s[at.value]) == id;
  }

  lemma WithoutCons(x: Item, s: seq<Item>, id: int)
    ensures WithoutId([x] + s, ITEM_ID, id) == (if x.id == id then [] else [x]) + WithoutId(s, ITEM_ID, id)
    ensures [x] + [] == [x]
  {
    assert ([x] + s)[1..] == s;
  }
}
