/** Rewriting the JSONL chunk files (scripts/add_table_chunks.py, scripts/regenerate_table_chunks.py), down to the
    characters. */
module ChunkFiles {
  import opened Outcomes
  import opened TextLines

  /** What json.loads makes of a line: its chunk_id, if it has one, and whether its section is
      "financial_table". None is a line that does not parse to an object. */
  datatype Record = Record(id: Option<string>, table: bool)

  type Parser = string -> Option<Record>

  /** A generated chunk and the JSON text it is written as. */
  datatype Chunk = Chunk(id: string, text: string)

  // ---------------------------------------------------------------- the records of a file

  function Records(text: string): seq<string> { NonBlank(Lines(text)) }

  predicate Parses(parse: Parser, lines: seq<string>) { forall i :: 0 <= i < |lines| ==> parse(lines[i]).Some? }

  /** Every record has an identifier to load. */
  predicate Identified(parse: Parser, lines: seq<string>) {
    forall i :: 0 <= i < |lines| ==> parse(lines[i]).Some? && parse(lines[i]).value.id.Some?
  }

  /** The records that are not tables. */
  function NoTables(parse: Parser, lines: seq<string>): (r: seq<string>)
    requires Parses(parse, lines)
    ensures |r| <= |lines| && Parses(parse, r)
  {
    if lines == [] then []
    else NoTables(parse, lines[..|lines| - 1])
         + if parse(lines[|lines| - 1]).value.table then [] else [lines[|lines| - 1]]
  }

  function Ids(parse: Parser, lines: seq<string>): set<string>
    requires Identified(parse, lines)
  {
    set i | 0 <= i < |lines| :: parse(lines[i]).value.id.value
  }

  /** The chunks whose identifiers are not among these. Two chunks of one batch are not compared. */
  function Missing(chunks: seq<Chunk>, ids: set<string>): (r: seq<Chunk>)
    ensures forall i :: 0 <= i < |r| ==> r[i] in chunks && r[i].id !in ids
  {
    if chunks == [] then []
    else Missing(chunks[..|chunks| - 1], ids) + if chunks[|chunks| - 1].id in ids then [] else [chunks[|chunks| - 1]]
  }

  function Texts(chunks: seq<Chunk>): (r: seq<string>)
    ensures |r| == |chunks| && forall i :: 0 <= i < |r| ==> r[i] == chunks[i].text
  {
    seq(|chunks|, i requires 0 <= i < |chunks| => chunks[i].text)
  }

  /** "\n".join(lines) */
  function Join(lines: seq<string>): string {
    if lines == [] then [] else if |lines| == 1 then lines[0] else lines[0] + "\n" + Join(lines[1..])
  }

  // ---------------------------------------------------------------- the two scripts, one file at a time

  class ChunkFile {
    var text: string
    const parse: Parser

    constructor (text: string, parse: Parser)
      ensures this.text == text && this.parse == parse
    {
      this.text, this.parse := text, parse;
    }

    /** regenerate_table_chunks: drops the table records, and leaves a file without any untouched. A line that
        does not parse raises before anything is written. */
    method Regenerate() returns (r: Result<nat>)
      modifies this
      ensures r.Ok? <==> Parses(parse, Records(old(text)))
      ensures r.Raised? ==> text == old(text)
      ensures r.Ok? && (forall l :: l in Records(old(text)) ==> !parse(l).value.table) ==> text == old(text) && r.value == 0
      ensures r.Ok? ==> text == Regenerated(parse, old(text))
                        && r.value == |Records(old(text))| - |NoTables(parse, Records(old(text)))|
    {
      var lines := NonBlank(Lines(text));
      var kept, removed := [], 0;
      for n := 0 to |lines|
        invariant text == old(text) && Parses(parse, lines[..n])
        invariant kept == NoTables(parse, lines[..n]) && removed == n - |kept|
      {
        if parse(lines[n]).None? {
          return Raised("JSONDecodeError");
        }
        NoTablesNext(parse, lines, n);
        if parse(lines[n]).value.table {
          removed := removed + 1;
        } else {
          kept := kept + [lines[n]];
        }
      }
      assert lines[..|lines|] == lines;
      TablesRemoved(parse, lines);
      if removed > 0 {
        text := Join(kept) + "\n";
      }
      r := Ok(removed);
    }

    /** _load_existing_chunk_ids: a record that does not parse, or has no identifier, raises. */
    method ExistingIds() returns (r: Result<set<string>>)
      ensures r.Ok? <==> Identified(parse, Records(text))
      ensures r.Ok? ==> r.value == Ids(parse, Records(text))
    {
      var lines, ids := Lines(text), {};
      for n := 0 to |lines|
        invariant Identified(parse, NonBlank(lines[..n])) && ids == Ids(parse, NonBlank(lines[..n]))
      {
        NonBlankNext(lines, n);
        NonBlankPrefix(lines, n + 1);
        if !Blank(lines[n]) {
          var record := parse(lines[n]);
          if record.None? || record.value.id.None? {
            assert NonBlank(lines)[|NonBlank(lines[..n])|] == lines[n];
            return Raised("KeyError or JSONDecodeError");
          }
          IdsNext(parse, NonBlank(lines[..n]), lines[n]);
          ids := ids + {record.value.id.value};
        } else {
          assert NonBlank(lines[..n]) + [] == NonBlank(lines[..n]);
        }
      }
      assert lines[..|lines|] == lines;
      r := Ok(ids);
    }

    /** add_table_chunks: appends the chunks whose identifiers the file does not have. */
    method Add(chunks: seq<Chunk>) returns (r: Result<nat>)
      modifies this
      ensures r.Ok? <==> Identified(parse, Records(old(text)))
      ensures r.Raised? ==> text == old(text)
      ensures r.Ok? ==> text == Added(parse, old(text), chunks)
                        && r.value == |Missing(chunks, Ids(parse, Records(old(text))))|
    {
      var existing := ExistingIds();
      if existing.Raised? {
        return Raised(existing.reason);
      }
      var missing := Missing(chunks, existing.value);
      Append(missing);
      r := Ok(|missing|);
    }

    method Append(chunks: seq<Chunk>)
      modifies this
      ensures text == old(text) + Written(Texts(chunks))
    {
      var texts := Texts(chunks);
      assert texts[..0] == [];
      for n := 0 to |chunks|
        invariant text == old(text) + Written(texts[..n])
      {
        WrittenNext(texts, n);
        text := text + chunks[n].text + "\n";
      }
      assert texts[..|chunks|] == texts;
    }
  }

  /** What is kept are exactly the records that are no tables, and something is removed exactly when there is one. */
  lemma {:induction false} TablesRemoved(parse: Parser, lines: seq<string>)
    requires Parses(parse, lines)
    ensures forall l :: l in NoTables(parse, lines) <==> l in lines && !parse(l).value.table
    ensures |NoTables(parse, lines)| < |lines| <==> exists l :: l in lines && parse(l).value.table
  {
    if lines != [] {
      TablesRemoved(parse, lines[..|lines| - 1]);
      assert lines == lines[..|lines| - 1] + [lines[|lines| - 1]];
    }
  }

  lemma NoTablesNext(parse: Parser, lines: seq<string>, n: nat)
    requires n < |lines| && Parses(parse, lines[..n]) && parse(lines[n]).Some?
    ensures Parses(parse, lines[..n + 1])
    ensures NoTables(parse, lines[..n + 1]) == NoTables(parse, lines[..n]) + if parse(lines[n]).value.table then [] else [lines[n]]
  {
    assert lines[..n + 1][..n] == lines[..n];
    assert forall i :: 0 <= i < n ==> lines[..n + 1][i] == lines[..n][i];
  }

  lemma IdsNext(parse: Parser, lines: seq<string>, line: string)
    requires Identified(parse, lines) && parse(line).Some? && parse(line).value.id.Some?
    ensures Identified(parse, lines + [line]) && Ids(parse, lines + [line]) == Ids(parse, lines) + {parse(line).value.id.value}
  {
    var all := lines + [line];
    assert all[|lines|] == line && forall i :: 0 <= i < |lines| ==> all[i] == lines[i];
  }

  // ---------------------------------------------------------------- what they make of a file

  function Regenerated(parse: Parser, text: string): string
    requires Parses(parse, Records(text))
  {
    var kept := NoTables(parse, Records(text));
    if |kept| < |Records(text)| then Join(kept) + "\n" else text
  }

  function Added(parse: Parser, text: string, chunks: seq<Chunk>): string
    requires Identified(parse, Records(text))
  {
    text + Written(Texts(Missing(chunks, Ids(parse, Records(text)))))
  }

  /** Generated table chunks as json.dumps writes them and json.loads reads them, holding none of the three
      break characters it does not escape. */
  ghost predicate Printed(parse: Parser, chunks: seq<Chunk>) {
    forall c :: c in chunks ==> Clean(c.text) && !Blank(c.text) && parse(c.text) == Some(Record(Some(c.id), true))
  }

  lemma {:induction false} KeepAllLines(lines: seq<string>)
    requires forall i :: 0 <= i < |lines| ==> !Blank(lines[i])
    ensures NonBlank(lines) == lines
  {
    if lines != [] {
      KeepAllLines(lines[1..]);
    }
  }

  lemma {:induction false} NoTablesConcat(parse: Parser, a: seq<string>, b: seq<string>)
    requires Parses(parse, a) && Parses(parse, b)
    ensures Parses(parse, a + b) && NoTables(parse, a + b) == NoTables(parse, a) + NoTables(parse, b)
  {
    if b == [] {
      assert a + b == a;
    } else {
      var front := b[..|b| - 1];
      NoTablesConcat(parse, a, front);
      assert (a + b)[..|a + b| - 1] == a + front;
    }
  }

  lemma NoTablesFacts(parse: Parser, lines: seq<string>)
    requires Parses(parse, lines)
    ensures NoTables(parse, NoTables(parse, lines)) == NoTables(parse, lines)
    ensures |NoTables(parse, lines)| == |lines| ==> NoTables(parse, lines) == lines
    ensures Identified(parse, lines) ==> Identified(parse, NoTables(parse, lines))
  {
    NoTablesTwice(parse, lines);
    NoTablesOfNone(parse, lines);
    NoTablesIdentified(parse, lines);
  }

  lemma {:induction false} NoTablesTwice(parse: Parser, lines: seq<string>)
    requires Parses(parse, lines)
    ensures NoTables(parse, NoTables(parse, lines)) == NoTables(parse, lines)
  {
    if lines != [] {
      var front, last := lines[..|lines| - 1], lines[|lines| - 1];
      NoTablesTwice(parse, front);
      var kept := NoTables(parse, front);
      assert (kept + [last])[..|kept|] == kept && kept + [] == kept;
    }
  }

  lemma {:induction false} NoTablesOfNone(parse: Parser, lines: seq<string>)
    requires Parses(parse, lines)
    ensures |NoTables(parse, lines)| == |lines| ==> NoTables(parse, lines) == lines
  {
    if lines != [] {
      NoTablesOfNone(parse, lines[..|lines| - 1]);
      assert lines == lines[..|lines| - 1] + [lines[|lines| - 1]];
    }
  }

  lemma {:induction false} NoTablesIdentified(parse: Parser, lines: seq<string>)
    requires Parses(parse, lines)
    ensures Identified(parse, lines) ==> Identified(parse, NoTables(parse, lines))
  {
    if lines != [] && Identified(parse, lines) {
      var front := lines[..|lines| - 1];
      assert Identified(parse, front);
      NoTablesIdentified(parse, front);
    }
  }

  lemma {:induction false} NoTablesKeepsShape(parse: Parser, lines: seq<string>)
    requires Parses(parse, lines) && AllClean(lines) && NonBlank(lines) == lines
    ensures AllClean(NoTables(parse, lines)) && NonBlank(NoTables(parse, lines)) == NoTables(parse, lines)
  {
    if lines != [] {
      var front, last := lines[..|lines| - 1], lines[|lines| - 1];
      assert lines == front + [last];
      NonBlankFront(front, last);
      NoTablesKeepsShape(parse, front);
      if parse(last).value.table {
        assert NoTables(parse, front) + [] == NoTables(parse, front);
      } else {
        NonBlankConcat(NoTables(parse, front), [last]);
      }
    }
  }

  lemma NonBlankFront(front: seq<string>, last: string)
    requires NonBlank(front + [last]) == front + [last]
    ensures NonBlank(front) == front && NonBlank([last]) == [last]
  {
    NonBlankConcat(front, [last]);
    NonBlankOne(last);
    NonBlankShrinks(front);
    assert |NonBlank(front)| + |NonBlank([last])| == |front| + 1;
    assert (front + [last])[..|front|] == front && (NonBlank(front) + [last])[..|front|] == NonBlank(front);
  }

  lemma {:induction false} NonBlankShrinks(lines: seq<string>)
    ensures |NonBlank(lines)| <= |lines| && NonBlank(NonBlank(lines)) == NonBlank(lines)
    ensures AllClean(lines) ==> AllClean(NonBlank(lines))
  {
    if lines != [] {
      NonBlankShrinks(lines[1..]);
      var rest := NonBlank(lines[1..]);
      assert ([lines[0]] + rest)[1..] == rest && [] + rest == rest;
      assert AllClean(lines) ==> AllClean(lines[1..]);
    }
  }

  lemma {:induction false} OnlyTables(parse: Parser, lines: seq<string>)
    requires forall i :: 0 <= i < |lines| ==> parse(lines[i]).Some? && parse(lines[i]).value.table
    ensures NoTables(parse, lines) == []
  {
    if lines != [] {
      OnlyTables(parse, lines[..|lines| - 1]);
    }
  }

  lemma {:induction false} JoinIsWritten(lines: seq<string>)
    requires lines != []
    ensures Join(lines) + "\n" == Written(lines)
  {
    if |lines| == 1 {
      assert lines[0] + "\n" + Written(lines[1..]) == lines[0] + "\n";
    } else {
      JoinIsWritten(lines[1..]);
      assert Join(lines) + "\n" == lines[0] + "\n" + (Join(lines[1..]) + "\n");
    }
  }

  /** What regenerating writes, when it writes. */
  lemma RewrittenRecords(kept: seq<string>)
    requires AllClean(kept) && NonBlank(kept) == kept
    ensures Records(Join(kept) + "\n") == kept && Terminated(Join(kept) + "\n")
  {
    if kept == [] {
      WrittenOne("");
      ReadsBack([""]);
      NonBlankOne("");
      assert Join(kept) + "\n" == "" + "\n";
    } else {
      JoinIsWritten(kept);
      ReadsBack(kept);
    }
  }

  /** A rewritten file holds exactly the records that are not tables, in order, and ends in a newline. */
  lemma RegeneratedRecords(parse: Parser, text: string)
    requires Parses(parse, Records(text))
    ensures Records(Regenerated(parse, text)) == NoTables(parse, Records(text))
    ensures Terminated(text) ==> Terminated(Regenerated(parse, text))
  {
    LinesAreClean(text);
    NonBlankShrinks(Lines(text));
    NoTablesFacts(parse, Records(text));
    NoTablesKeepsShape(parse, Records(text));
    var kept := NoTables(parse, Records(text));
    if |kept| < |Records(text)| {
      RewrittenRecords(kept);
    }
  }

  /** Regenerating twice is regenerating once, character for character. */
  lemma RegenerateIsIdempotent(parse: Parser, text: string)
    requires Parses(parse, Records(text))
    ensures Parses(parse, Records(Regenerated(parse, text)))
    ensures Regenerated(parse, Regenerated(parse, text)) == Regenerated(parse, text)
  {
    RegeneratedRecords(parse, text);
    NoTablesFacts(parse, Records(text));
  }

  /** Adding to a terminated file appends the missing chunks to its records and touches nothing else. */
  lemma AddedRecords(parse: Parser, text: string, chunks: seq<Chunk>)
    requires Identified(parse, Records(text)) && Terminated(text) && Printed(parse, chunks)
    ensures Records(Added(parse, text, chunks)) == Records(text) + Texts(Missing(chunks, Ids(parse, Records(text))))
    ensures Terminated(Added(parse, text, chunks)) && Identified(parse, Records(Added(parse, text, chunks)))
  {
    var missing := Missing(chunks, Ids(parse, Records(text)));
    var texts := Texts(missing);
    assert forall i :: 0 <= i < |texts| ==> missing[i] in chunks && texts[i] == missing[i].text;
    if texts == [] {
      assert text + Written(texts) == text && Records(text) + texts == Records(text);
    } else {
      AppendsExactlyWhen(text, texts);
      NonBlankConcat(Lines(text), texts);
      KeepAllLines(texts);
      ReadsBack(texts);
    }
  }

  lemma {:induction false} NoneMissing(chunks: seq<Chunk>, ids: set<string>)
    requires forall c :: c in chunks ==> c.id in ids
    ensures Missing(chunks, ids) == []
  {
    if chunks != [] {
      assert chunks[|chunks| - 1] in chunks && forall c :: c in chunks[..|chunks| - 1] ==> c in chunks;
      NoneMissing(chunks[..|chunks| - 1], ids);
    }
  }

  lemma MissingOne(c: Chunk, ids: set<string>)
    ensures Missing([c], ids) == if c.id in ids then [] else [c]
  {
    assert [c][..0] == [] && Missing([], ids) == [];
  }

  /** The missing chunks keep their order: those of two lists in turn are the one's and then the other's. */
  lemma {:induction false} MissingConcat(a: seq<Chunk>, b: seq<Chunk>, ids: set<string>)
    ensures Missing(a + b, ids) == Missing(a, ids) + Missing(b, ids)
  {
    if b == [] {
      assert a + b == a;
    } else {
      var n := |b| - 1;
      MissingConcat(a, b[..n], ids);
      assert (a + b)[..|a + b| - 1] == a + b[..n];
    }
  }

  lemma {:induction false} MissingHasAll(chunks: seq<Chunk>, ids: set<string>, c: Chunk)
    requires c in chunks && c.id !in ids
    ensures c in Missing(chunks, ids)
  {
    var front, last := chunks[..|chunks| - 1], chunks[|chunks| - 1];
    assert chunks == front + [last];
    if c in front {
      MissingHasAll(front, ids, c);
    }
  }

  /** Adding the same chunks again changes no character. */
  lemma AddIsIdempotent(parse: Parser, text: string, chunks: seq<Chunk>)
    requires Identified(parse, Records(text)) && Terminated(text) && Printed(parse, chunks)
    ensures Identified(parse, Records(Added(parse, text, chunks)))
    ensures Added(parse, Added(parse, text, chunks), chunks) == Added(parse, text, chunks)
  {
    AddedHasAll(parse, text, chunks);
    var after := Records(Added(parse, text, chunks));
    NoneMissing(chunks, Ids(parse, after));
    assert Texts([]) == [] && Added(parse, text, chunks) + Written([]) == Added(parse, text, chunks);
  }

  /** Regenerating and then adding. */
  function Refreshed(parse: Parser, text: string, chunks: seq<Chunk>): string
    requires Identified(parse, Records(text))
  {
    RegeneratedRecords(parse, text);
    NoTablesFacts(parse, Records(text));
    Added(parse, Regenerated(parse, text), chunks)
  }

  /** The two scripts in turn keep every other record, in order, and append exactly the generated chunks whose
      identifiers no kept record uses: the stale table records have no influence on what is left. */
  lemma RefreshedRecords(parse: Parser, text: string, chunks: seq<Chunk>)
    requires Identified(parse, Records(text)) && Terminated(text) && Printed(parse, chunks)
    ensures var kept := NoTables(parse, Records(text));
            && Identified(parse, kept)
            && Records(Refreshed(parse, text, chunks)) == kept + Texts(Missing(chunks, Ids(parse, kept)))
            && Terminated(Refreshed(parse, text, chunks)) && Identified(parse, Records(Refreshed(parse, text, chunks)))
  {
    RegeneratedRecords(parse, text);
    NoTablesFacts(parse, Records(text));
    AddedRecords(parse, Regenerated(parse, text), chunks);
  }

  /** Two files that agree on what is not a table end up with the same records -- and, when both had tables to
      remove, as the same file. */
  lemma StaleTablesDoNotMatter(parse: Parser, a: string, b: string, chunks: seq<Chunk>)
    requires Identified(parse, Records(a)) && Identified(parse, Records(b)) && Printed(parse, chunks)
    requires Terminated(a) && Terminated(b)
    requires NoTables(parse, Records(a)) == NoTables(parse, Records(b))
    ensures Records(Refreshed(parse, a, chunks)) == Records(Refreshed(parse, b, chunks))
    ensures |NoTables(parse, Records(a))| < |Records(a)| && |NoTables(parse, Records(b))| < |Records(b)| ==>
              Refreshed(parse, a, chunks) == Refreshed(parse, b, chunks)
  {
    RefreshedRecords(parse, a, chunks);
    RefreshedRecords(parse, b, chunks);
  }

  /** Running both scripts again leaves the same records. */
  lemma RefreshIsIdempotent(parse: Parser, text: string, chunks: seq<Chunk>)
    requires Identified(parse, Records(text)) && Terminated(text) && Printed(parse, chunks)
    ensures Identified(parse, Records(Refreshed(parse, text, chunks)))
    ensures Records(Refreshed(parse, Refreshed(parse, text, chunks), chunks)) == Records(Refreshed(parse, text, chunks))
  {
    RefreshedRecords(parse, text, chunks);
    RefreshedRecords(parse, Refreshed(parse, text, chunks), chunks);
    var kept := NoTables(parse, Records(text));
    var missing := Missing(chunks, Ids(parse, kept));
    KeptAndTables(parse, Records(text), missing);
  }

  lemma KeptAndTables(parse: Parser, records: seq<string>, tables: seq<Chunk>)
    requires Parses(parse, records) && Printed(parse, tables)
    ensures Parses(parse, NoTables(parse, records) + Texts(tables))
    ensures NoTables(parse, NoTables(parse, records) + Texts(tables)) == NoTables(parse, records)
  {
    assert forall i :: 0 <= i < |tables| ==> tables[i] in tables && Texts(tables)[i] == tables[i].text;
    OnlyTables(parse, Texts(tables));
    NoTablesFacts(parse, records);
    NoTablesConcat(parse, NoTables(parse, records), Texts(tables));
    assert NoTables(parse, records) + [] == NoTables(parse, records);
  }

  // ---------------------------------------------------------------- identifiers

  ghost predicate NoRepeat(s: seq<string>) { forall i, j :: 0 <= i < j < |s| ==> s[i] != s[j] }

  function IdsOf(parse: Parser, lines: seq<string>): (r: seq<string>)
    requires Identified(parse, lines)
    ensures |r| == |lines| && forall i :: 0 <= i < |r| ==> r[i] == parse(lines[i]).value.id.value
  {
    seq(|lines|, i requires 0 <= i < |lines| => parse(lines[i]).value.id.value)
  }

  function ChunkIds(chunks: seq<Chunk>): (r: seq<string>)
    ensures |r| == |chunks| && forall i :: 0 <= i < |r| ==> r[i] == chunks[i].id
  {
    seq(|chunks|, i requires 0 <= i < |chunks| => chunks[i].id)
  }

  /** No two records have the same identifier. */
  ghost predicate UniqueIds(parse: Parser, lines: seq<string>)
    requires Identified(parse, lines)
  {
    NoRepeat(IdsOf(parse, lines))
  }

  ghost predicate DistinctChunks(chunks: seq<Chunk>) { NoRepeat(ChunkIds(chunks)) }

  /** After adding, identifiers are unique if and only if they were before and the appended chunks do not
      repeat one among themselves. */
  lemma AddedIdsUniqueIff(parse: Parser, text: string, chunks: seq<Chunk>)
    requires Identified(parse, Records(text)) && Terminated(text) && Printed(parse, chunks)
    ensures Identified(parse, Records(Added(parse, text, chunks)))
    ensures UniqueIds(parse, Records(Added(parse, text, chunks)))
            <==> UniqueIds(parse, Records(text)) && DistinctChunks(Missing(chunks, Ids(parse, Records(text))))
  {
    AddedRecords(parse, text, chunks);
    var before, missing := Records(text), Missing(chunks, Ids(parse, Records(text)));
    JoinedIds(parse, before, missing);
  }

  lemma JoinedIds(parse: Parser, before: seq<string>, missing: seq<Chunk>)
    requires Identified(parse, before) && Printed(parse, missing)
    requires forall i :: 0 <= i < |missing| ==> missing[i].id !in Ids(parse, before)
    ensures Identified(parse, before + Texts(missing))
    ensures UniqueIds(parse, before + Texts(missing)) <==> UniqueIds(parse, before) && DistinctChunks(missing)
  {
    var texts := Texts(missing);
    assert forall i :: 0 <= i < |missing| ==> missing[i] in missing && texts[i] == missing[i].text;
    assert IdsOf(parse, texts) == ChunkIds(missing);
    assert IdsOf(parse, before + texts) == IdsOf(parse, before) + IdsOf(parse, texts);
    forall i, j | 0 <= i < |before| && 0 <= j < |missing| ensures IdsOf(parse, before)[i] != ChunkIds(missing)[j] {
      assert parse(before[i]).value.id.value in Ids(parse, before);
    }
    NoRepeatConcat(IdsOf(parse, before), ChunkIds(missing));
  }

  lemma NoRepeatConcat(a: seq<string>, b: seq<string>)
    requires forall i, j :: 0 <= i < |a| && 0 <= j < |b| ==> a[i] != b[j]
    ensures NoRepeat(a + b) <==> NoRepeat(a) && NoRepeat(b)
  {
    var all := a + b;
    assert forall i :: 0 <= i < |a| ==> all[i] == a[i];
    assert forall j :: 0 <= j < |b| ==> all[|a| + j] == b[j];
  }

  lemma {:induction false} MissingDistinct(chunks: seq<Chunk>, ids: set<string>)
    requires DistinctChunks(chunks)
    ensures DistinctChunks(Missing(chunks, ids))
  {
    if chunks != [] {
      var front, last := chunks[..|chunks| - 1], chunks[|chunks| - 1];
      assert ChunkIds(front) == ChunkIds(chunks)[..|front|];
      MissingDistinct(front, ids);
      var rest := Missing(front, ids);
      forall i | 0 <= i < |rest| ensures rest[i].id != last.id {
        assert rest[i] in front;
        var k :| 0 <= k < |front| && front[k] == rest[i];
        assert ChunkIds(chunks)[k] != ChunkIds(chunks)[|front|];
      }
    }
  }

  /** Generated chunks are numbered, so their identifiers differ. A refresh of a file whose other records have
      unique identifiers then leaves every generated identifier, and every identifier at most once. */
  lemma RefreshedIdsOnce(parse: Parser, text: string, chunks: seq<Chunk>)
    requires Identified(parse, Records(text)) && Terminated(text) && Printed(parse, chunks) && DistinctChunks(chunks)
    ensures Identified(parse, NoTables(parse, Records(text))) && Identified(parse, Records(Refreshed(parse, text, chunks)))
    ensures UniqueIds(parse, Records(Refreshed(parse, text, chunks))) <==> UniqueIds(parse, NoTables(parse, Records(text)))
    ensures forall c :: c in chunks ==> c.id in Ids(parse, Records(Refreshed(parse, text, chunks)))
  {
    RegeneratedRecords(parse, text);
    NoTablesFacts(parse, Records(text));
    var regenerated := Regenerated(parse, text);
    AddedIdsUniqueIff(parse, regenerated, chunks);
    MissingDistinct(chunks, Ids(parse, Records(regenerated)));
    AddedHasAll(parse, regenerated, chunks);
  }

  /** Every chunk's identifier is in the file afterwards. */
  lemma AddedHasAll(parse: Parser, text: string, chunks: seq<Chunk>)
    requires Identified(parse, Records(text)) && Terminated(text) && Printed(parse, chunks)
    ensures Identified(parse, Records(Added(parse, text, chunks)))
    ensures forall c :: c in chunks ==> c.id in Ids(parse, Records(Added(parse, text, chunks)))
  {
    AddedRecords(parse, text, chunks);
    var ids, after := Ids(parse, Records(text)), Records(Added(parse, text, chunks));
    forall c | c in chunks ensures c.id in Ids(parse, after) {
      if c.id in ids {
        var i :| 0 <= i < |Records(text)| && parse(Records(text)[i]).value.id.value == c.id;
        assert after[i] == Records(text)[i];
      } else {
        MissingHasAll(chunks, ids, c);
        var i :| 0 <= i < |Missing(chunks, ids)| && Missing(chunks, ids)[i] == c;
        assert after[|Records(text)| + i] == c.text;
      }
    }
  }
}
