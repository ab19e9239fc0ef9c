/** Append-only files of JSON rows: written one row and a newline at a time (src/evaluation/request_ledger.py,
    append_record; the campaign runners' _append_jsonl) and read back as a whole
    (src/evaluation/evidence_provenance.py, read_jsonl). A write may be cut short after any of its characters. */
module Jsonl {
  import opened Outcomes
  import opened TextLines

  /** How rows are printed on one line, and what a line parses to; None is a line that is not a row. */
  datatype Format<!R> = Format(render: R -> string, parse: string -> Option<R>)

  /** Some of the first characters of a printed row, possibly all. */
  ghost predicate Fragment<R(!new)>(f: Format<R>, t: string) {
    t != [] && exists r :: t <= f.render(r)
  }

  /** What JSON objects promise: a printed row starts with its brace and parses back; a row that is cut short
      does not parse; and neither do two rows on one line, whole or cut short. */
  ghost predicate Sound<R(!new)>(f: Format<R>) {
    && (forall r :: ParsesBack(f, r))
    && (forall r, n :: CutFails(f, r, n))
    && (forall a, b :: PairFails(f, a, b))
  }

  predicate ParsesBack<R(==)>(f: Format<R>, r: R) {
    f.render(r) != [] && !IsSpace(f.render(r)[0]) && f.parse(f.render(r)) == Some(r)
  }

  predicate CutFails<R>(f: Format<R>, r: R, n: nat) {
    0 < n < |f.render(r)| ==> f.parse(f.render(r)[..n]).None?
  }

  ghost predicate PairFails<R(!new)>(f: Format<R>, a: string, b: string) {
    Fragment(f, a) && Fragment(f, b) ==> f.parse(a + b).None?
  }

  /** A row of flags between braces is such a format. */
  function Bits(r: seq<bool>): (t: string)
    ensures |t| == |r| && forall i :: 0 <= i < |t| ==> t[i] == if r[i] then '1' else '0'
  {
    seq(|r|, i requires 0 <= i < |r| => if r[i] then '1' else '0')
  }

  function ReadBits(t: string): Option<seq<bool>> {
    var n := |t| - 2;
    if n < 0 || t[0] != '{' || t[n + 1] != '}' || exists i :: 0 < i <= n && t[i] != '0' && t[i] != '1' then None
    else Some(seq(n, i requires 0 <= i < n => t[i + 1] == '1'))
  }

  /** What is promised of rows can be kept. */
  lemma SoundIsPossible() returns (f: Format<seq<bool>>)
    ensures Sound(f)
  {
    f := Format((r: seq<bool>) => "{" + Bits(r) + "}", ReadBits);
    forall r ensures ParsesBack(f, r) {
      assert ReadBits(f.render(r)).value == r;
    }
    forall r, n: nat ensures CutFails(f, r, n) {
      assert 0 < n < |f.render(r)| ==> f.render(r)[..n][n - 1] != '}';
    }
    forall a, b ensures PairFails(f, a, b) {
      assert Fragment(f, a) && Fragment(f, b) ==> (a + b)[|a|] == '{';
    }
  }

  // ---------------------------------------------------------------- reading

  function ParseAll<R>(f: Format<R>, lines: seq<string>): Option<seq<R>> {
    if lines == [] then Some([])
    else
      var first, rest := f.parse(lines[0]), ParseAll(f, lines[1..]);
      if first.None? || rest.None? then None else Some([first.value] + rest.value)
  }

  /** Every line that is not blank must parse. */
  function Read<R>(f: Format<R>, text: string): Option<seq<R>> { ParseAll(f, NonBlank(Lines(text))) }

  // ---------------------------------------------------------------- files as they were written

  /** A line that was written: a row, or what is left when a write was cut short -- alone, or in front of the
      next row that was written. */
  datatype Line<R> = Whole(row: R) | Torn(text: string)

  /** The lines, each ended by its newline, but for the last one when the file is open. */
  datatype File<R> = File(lines: seq<Line<R>>, open: bool)

  function LineText<R>(f: Format<R>, l: Line<R>): string { if l.Whole? then f.render(l.row) else l.text }

  function Content<R>(f: Format<R>, file: File<R>): string
    decreases |file.lines|
  {
    if file.lines == [] then []
    else LineText(f, file.lines[0])
         + (if file.open && |file.lines| == 1 then [] else "\n" + Content(f, File(file.lines[1..], file.open)))
  }

  /** What a torn line can look like. */
  ghost predicate TornText<R(!new)>(f: Format<R>, t: string) {
    || (exists r, n :: 0 < n < |f.render(r)| && t == f.render(r)[..n])
    || (exists a, b :: Fragment(f, a) && Fragment(f, b) && t == a + b)
  }

  ghost predicate Genuine<R(!new)>(f: Format<R>, l: Line<R>) { l.Torn? ==> TornText(f, l.text) }

  ghost predicate AllGenuine<R(!new)>(f: Format<R>, file: File<R>) {
    forall i :: 0 <= i < |file.lines| ==> Genuine(f, file.lines[i])
  }

  /** A line that reads back as the row it is. */
  predicate Intact<R>(f: Format<R>, l: Line<R>) { l.Whole? && Clean(f.render(l.row)) }

  predicate Undamaged<R>(f: Format<R>, file: File<R>) {
    forall i :: 0 <= i < |file.lines| ==> Intact(f, file.lines[i])
  }

  predicate AllWhole<R>(lines: seq<Line<R>>) { forall i :: 0 <= i < |lines| ==> lines[i].Whole? }

  function RowsOf<R>(lines: seq<Line<R>>): (r: seq<R>)
    requires AllWhole(lines)
    ensures |r| == |lines| && forall i :: 0 <= i < |r| ==> r[i] == lines[i].row
  {
    seq(|lines|, i requires 0 <= i < |lines| => lines[i].row)
  }

  /** A text whose first line does not parse cannot be read, whatever follows it. */
  lemma BadStart<R>(f: Format<R>, t: string, more: string)
    requires t != [] && !IsSpace(t[0]) && f.parse(t[..FirstBreak(t)]).None?
    requires more != [] ==> IsBreak(more[0])
    ensures Read(f, t + more).None?
  {
    var s, k := t + more, FirstBreak(t);
    SameFirstBreak(t, more);
    assert s[..k] == t[..k];
    var lines := Lines(s);
    assert lines[0] == t[..k] && !Blank(t[..k]) by {
      assert t[..k][0] == t[0];
    }
    assert NonBlank(lines)[0] == t[..k];
  }

  lemma {:induction false} SameFirstBreak(t: string, more: string)
    requires more != [] ==> IsBreak(more[0])
    ensures FirstBreak(t + more) == FirstBreak(t)
  {
    if t == [] {
      assert t + more == more;
    } else if !IsBreak(t[0]) {
      SameFirstBreak(t[1..], more);
      assert (t + more)[1..] == t[1..] + more;
    }
  }

  /** A line that is not intact starts with something that does not parse. */
  lemma DamagedStart<R(!new)>(f: Format<R>, l: Line<R>)
    requires Sound(f) && Genuine(f, l) && !Intact(f, l)
    ensures var t := LineText(f, l); t != [] && !IsSpace(t[0]) && f.parse(t[..FirstBreak(t)]).None?
  {
    var t := LineText(f, l);
    var k := FirstBreak(t);
    if l.Whole? {
      UncleanStart(f, l.row);
    } else if r, n :| 0 < n < |f.render(r)| && t == f.render(r)[..n] {
      CutStart(f, r, n);
    } else {
      var a, b :| Fragment(f, a) && Fragment(f, b) && t == a + b;
      GluedStart(f, a, b);
    }
  }

  lemma UncleanStart<R(!new)>(f: Format<R>, r: R)
    requires Sound(f) && !Clean(f.render(r))
    ensures var t := f.render(r); t != [] && !IsSpace(t[0]) && f.parse(t[..FirstBreak(t)]).None?
  {
    var t := f.render(r);
    assert ParsesBack(f, r) && t[..|t|] == t;
    assert CutFails(f, r, FirstBreak(t));
  }

  lemma CutStart<R(!new)>(f: Format<R>, r: R, n: nat)
    requires Sound(f) && 0 < n < |f.render(r)|
    ensures var t := f.render(r)[..n]; !IsSpace(t[0]) && f.parse(t[..FirstBreak(t)]).None?
  {
    var t := f.render(r)[..n];
    var k := FirstBreak(t);
    assert ParsesBack(f, r) && t[0] == f.render(r)[0];
    assert t[..k] == f.render(r)[..k] && CutFails(f, r, k);
  }

  lemma GluedStart<R(!new)>(f: Format<R>, a: string, b: string)
    requires Sound(f) && Fragment(f, a) && Fragment(f, b)
    ensures var t := a + b; !IsSpace(t[0]) && f.parse(t[..FirstBreak(t)]).None?
  {
    var t := a + b;
    var k := FirstBreak(t);
    var r :| a <= f.render(r);
    var q :| b <= f.render(q);
    assert ParsesBack(f, r) && ParsesBack(f, q);
    assert t[0] == f.render(r)[0] && t[|a|] == b[0] == f.render(q)[0];
    if k < |a| {
      assert t[..k] == f.render(r)[..k] && CutFails(f, r, k);
    } else {
      var c := b[..k - |a|];
      assert t[..k] == a + c && c <= f.render(q) && c != [];
      assert Fragment(f, c) && PairFails(f, a, c);
    }
  }

  /** An intact line is read as its row, and reading goes on behind it. */
  lemma GoodStart<R(!new)>(f: Format<R>, l: Line<R>, more: string)
    requires Sound(f) && Intact(f, l)
    ensures Read(f, LineText(f, l)) == Some([l.row])
    ensures Read(f, LineText(f, l) + "\n" + more) ==
              if Read(f, more).Some? then Some([l.row] + Read(f, more).value) else None
  {
    var t := f.render(l.row);
    assert ParsesBack(f, l.row);
    assert !Blank(t) by {
      assert !IsSpace(t[0]);
    }
    OneLine(t, more);
    assert ([t] + Lines(more))[1..] == Lines(more);
    assert ([t] + NonBlank(Lines(more)))[1..] == NonBlank(Lines(more));
    assert FirstBreak(t) == |t|;
    NonBlankOne(t);
    assert Lines(t) == [t] && [t][1..] == [] && ParseAll(f, []) == Some([]);
    assert [l.row] + [] == [l.row];
  }

  /** A file reads back -- as exactly the rows written to it -- if and only if every line of it is a whole row
      whose text holds no character that splitlines cuts at. */
  lemma {:induction false} ReadsBackIff<R(!new)>(f: Format<R>, file: File<R>)
    requires Sound(f) && AllGenuine(f, file)
    ensures Read(f, Content(f, file)) == if Undamaged(f, file) then Some(RowsOf(file.lines)) else None
    decreases |file.lines|
  {
    if file.lines == [] {
      assert RowsOf(file.lines) == [];
    } else {
      var first, rest := file.lines[0], File(file.lines[1..], file.open);
      var behind := if file.open && |file.lines| == 1 then [] else "\n" + Content(f, rest);
      assert Content(f, file) == LineText(f, first) + behind;
      assert forall i :: 0 <= i < |rest.lines| ==> rest.lines[i] == file.lines[i + 1];
      ReadsBackIff(f, rest);
      if !Intact(f, first) {
        DamagedStart(f, first);
        BadStart(f, LineText(f, first), behind);
      } else {
        GoodStart(f, first, Content(f, rest));
        assert LineText(f, first) + behind == if behind == [] then LineText(f, first) else LineText(f, first) + "\n" + Content(f, rest);
        UndamagedCons(f, file);
      }
    }
  }

  lemma UndamagedCons<R>(f: Format<R>, file: File<R>)
    requires file.lines != [] && Intact(f, file.lines[0])
    ensures Undamaged(f, file) <==> Undamaged(f, File(file.lines[1..], file.open))
    ensures Undamaged(f, file) ==> RowsOf(file.lines) == [file.lines[0].row] + RowsOf(file.lines[1..])
  {
    var lines, rest := file.lines, file.lines[1..];
    if Undamaged(f, file) {
      forall i | 0 <= i < |rest| ensures Intact(f, rest[i]) {
        assert Intact(f, lines[i + 1]);
      }
      assert RowsOf(lines) == [lines[0].row] + RowsOf(rest);
    } else if Undamaged(f, File(rest, file.open)) {
      forall i | 0 <= i < |lines| ensures Intact(f, lines[i]) {
        assert i > 0 ==> lines[i] == rest[i - 1];
      }
    }
  }

  // ---------------------------------------------------------------- writing

  /** What a write puts in the file. */
  function RowText<R>(f: Format<R>, r: R): string { f.render(r) + "\n" }

  /** No line is open, or a whole row that only lacks its newline. */
  predicate Writable<R>(file: File<R>) {
    file.open ==> file.lines != [] && file.lines[|file.lines| - 1].Whole?
  }

  /** The file after the first n characters of the row's text have reached it. */
  function Appended<R>(f: Format<R>, file: File<R>, r: R, n: nat): File<R>
    requires Writable(file) && n <= |RowText(f, r)|
  {
    var text, full := f.render(r), n == |RowText(f, r)|;
    if n == 0 then file
    else if file.open then
      var last := |file.lines| - 1;
      File(file.lines[..last] + [Torn(f.render(file.lines[last].row) + text[..Min(n, |text|)])], !full)
    else
      File(file.lines + [if n < |text| then Torn(text[..n]) else Whole(r)], !full)
  }

  lemma Joined(head: string, mid: string, text: string, end: string)
    ensures head + ("\n" + (mid + text + end)) == head + ("\n" + mid) + text + end
  {
  }

  lemma {:induction false} ContentOfMore<R>(f: Format<R>, front: seq<Line<R>>, last: Line<R>, open: bool)
    ensures Content(f, File(front + [last], open))
            == Content(f, File(front, false)) + LineText(f, last) + (if open then [] else "\n")
    decreases |front|
  {
    var all := front + [last];
    if front == [] {
      assert all[1..] == [];
      Associates([], [], LineText(f, last), if open then [] else "\n");
    } else {
      assert all[1..] == front[1..] + [last] && all[0] == front[0];
      ContentOfMore(f, front[1..], last, open);
      Joined(LineText(f, front[0]), Content(f, File(front[1..], false)), LineText(f, last), if open then [] else "\n");
    }
  }

  lemma Associates(a: string, b: string, c: string, d: string)
    ensures a + b + [] + (c + d) == a + (b + c) + d && a + (c + d) == a + c + d
  {
  }

  lemma ContentOfClosed<R>(f: Format<R>, file: File<R>, l: Line<R>, open: bool)
    requires !file.open
    ensures Content(f, File(file.lines + [l], open)) == Content(f, file) + (LineText(f, l) + (if open then [] else "\n"))
  {
    ContentOfMore(f, file.lines, l, open);
    Associates(Content(f, file), [], LineText(f, l), if open then [] else "\n");
  }

  lemma ContentOfOpen<R>(f: Format<R>, file: File<R>, more: string, open: bool)
    requires file.open && file.lines != []
    ensures var last := |file.lines| - 1;
            Content(f, File(file.lines[..last] + [Torn(LineText(f, file.lines[last]) + more)], open))
            == Content(f, file) + (more + (if open then [] else "\n"))
  {
    var last := |file.lines| - 1;
    var front := file.lines[..last];
    assert file.lines == front + [file.lines[last]];
    ContentOfMore(f, front, file.lines[last], true);
    ContentOfMore(f, front, Torn(LineText(f, file.lines[last]) + more), open);
    Associates(Content(f, File(front, false)), LineText(f, file.lines[last]), more, if open then [] else "\n");
  }

  /** The model of the lines agrees with the characters: a write only adds its own characters at the end. */
  lemma AppendedContent<R>(f: Format<R>, file: File<R>, r: R, n: nat)
    requires Writable(file) && n <= |RowText(f, r)|
    ensures Content(f, Appended(f, file, r, n)) == Content(f, file) + RowText(f, r)[..n]
  {
    var text, row := f.render(r), RowText(f, r);
    var part := text[..Min(n, |text|)];
    assert row[..n] == part + (if n == |row| then "\n" else []);
    if n > 0 && file.open {
      ContentOfOpen(f, file, part, n < |row|);
    } else if n > 0 {
      assert n >= |text| ==> part == text;
      ContentOfClosed(f, file, if n < |text| then Torn(text[..n]) else Whole(r), n < |row|);
    }
  }

  lemma AppendedGenuine<R(!new)>(f: Format<R>, file: File<R>, r: R, n: nat)
    requires Sound(f) && Writable(file) && AllGenuine(f, file) && n <= |RowText(f, r)|
    ensures AllGenuine(f, Appended(f, file, r, n))
    ensures Appended(f, file, r, n).open ==> Appended(f, file, r, n).lines != []
  {
    var text := f.render(r);
    if n > 0 && file.open {
      var w := f.render(file.lines[|file.lines| - 1].row);
      var part := text[..Min(n, |text|)];
      assert ParsesBack(f, r) && ParsesBack(f, file.lines[|file.lines| - 1].row);
      assert part <= text && w <= f.render(file.lines[|file.lines| - 1].row);
      assert Fragment(f, w) && Fragment(f, part);
    }
  }

  /** A write leaves a readable file, wherever it stops, exactly when it found one and either wrote nothing, or
      found no open line, got as far as the end of its row, and that row holds no character splitlines cuts at. */
  lemma AppendedUndamagedIff<R>(f: Format<R>, file: File<R>, r: R, n: nat)
    requires Writable(file) && n <= |RowText(f, r)|
    ensures Undamaged(f, Appended(f, file, r, n)) <==>
              Undamaged(f, file) && (n == 0 || (!file.open && n >= |f.render(r)| && Clean(f.render(r))))
    ensures n == |RowText(f, r)| ==> !Appended(f, file, r, n).open
  {
    var after := Appended(f, file, r, n);
    if n > 0 && file.open {
      assert after.lines[|file.lines| - 1].Torn?;
    } else if n > 0 {
      assert forall i :: 0 <= i < |file.lines| ==> after.lines[i] == file.lines[i];
      assert after.lines[|file.lines|] == if n < |f.render(r)| then Torn(f.render(r)[..n]) else Whole(r);
    }
  }

  // ---------------------------------------------------------------- a file and what was meant for it

  /** A file together with every row all of whose characters were ever written to it, in order, whether or not
      it can still be read. */
  datatype Journal<R> = Journal(rows: seq<R>, file: File<R>)

  /** A file without torn lines holds exactly these rows. */
  ghost predicate Faithful<R(!new)>(f: Format<R>, j: Journal<R>) {
    && AllGenuine(f, j.file) && (j.file.open ==> j.file.lines != [])
    && (AllWhole(j.file.lines) ==> RowsOf(j.file.lines) == j.rows)
  }

  predicate Readable<R>(f: Format<R>, j: Journal<R>) { Undamaged(f, j.file) }

  function Recorded<R>(f: Format<R>, j: Journal<R>, r: R, n: nat): Journal<R>
    requires Writable(j.file) && n <= |RowText(f, r)|
  {
    Journal(if n < |f.render(r)| then j.rows else j.rows + [r], Appended(f, j.file, r, n))
  }

  /** Reading a faithful file gives every row ever recorded, or fails. */
  method ReadAll<R(!new)>(f: Format<R>, j: Journal<R>) returns (r: Option<seq<R>>)
    requires Sound(f) && Faithful(f, j)
    ensures r == if Readable(f, j) then Some(j.rows) else None
  {
    ReadsBackIff(f, j.file);
    r := Read(f, Content(f, j.file));
  }

  lemma ReadableIsWritable<R>(f: Format<R>, j: Journal<R>)
    requires Readable(f, j) && (j.file.open ==> j.file.lines != [])
    ensures Writable(j.file)
  {
    if j.file.open {
      assert Intact(f, j.file.lines[|j.file.lines| - 1]);
    }
  }

  lemma RecordedFaithful<R(!new)>(f: Format<R>, j: Journal<R>, r: R, n: nat)
    requires Sound(f) && Faithful(f, j) && Writable(j.file) && n <= |RowText(f, r)|
    ensures Faithful(f, Recorded(f, j, r, n))
    ensures j.rows <= Recorded(f, j, r, n).rows
  {
    assert ParsesBack(f, r);
    AppendedGenuine(f, j.file, r, n);
    var lines, after := j.file.lines, Appended(f, j.file, r, n).lines;
    if n > 0 && j.file.open {
      assert after[|lines| - 1].Torn?;
    } else if n > 0 {
      assert forall i :: 0 <= i < |lines| ==> after[i] == lines[i];
      if n < |f.render(r)| {
        assert after[|lines|].Torn?;
      } else if AllWhole(lines) {
        assert RowsOf(after) == RowsOf(lines) + [r];
      }
    }
  }

  lemma RecordedGrows<R>(f: Format<R>, j: Journal<R>, r: R, n: nat)
    requires Writable(j.file) && n < |RowText(f, r)|
    ensures Recorded(f, j, r, n).rows <= Recorded(f, j, r, n + 1).rows
    ensures Content(f, Recorded(f, j, r, n).file) <= Content(f, Recorded(f, j, r, n + 1).file)
  {
    AppendedContent(f, j.file, r, n);
    AppendedContent(f, j.file, r, n + 1);
    assert RowText(f, r)[..n + 1] == RowText(f, r)[..n] + [RowText(f, r)[n]];
  }
}
