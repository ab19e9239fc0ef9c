/** Files of lines, down to the characters: the readers use str.splitlines, which cuts at more characters than the
    newline the writers put. */
module TextLines {
  // ---------------------------------------------------------------- str.splitlines

  predicate IsBreak(c: char) {
    || c == '\n' || c == '\r' || c == '\U{0B}' || c == '\U{0C}' || c == '\U{1C}' || c == '\U{1D}' || c == '\U{1E}'
    || c == '\U{85}' || c == '\U{2028}' || c == '\U{2029}'
  }

  predicate IsSpace(c: char) {
    || IsBreak(c) || c == ' ' || c == '\t' || c == '\U{1F}' || c == '\U{A0}' || c == '\U{1680}'
    || '\U{2000}' <= c <= '\U{200A}' || c == '\U{202F}' || c == '\U{205F}' || c == '\U{3000}'
  }

  /** The code points splitlines cuts at, and those strip removes. */
  lemma Characters(c: char)
    ensures IsBreak(c) <==> c as int in {10, 11, 12, 13, 28, 29, 30, 133, 8232, 8233}
    ensures IsSpace(c) <==> c as int in {9, 10, 11, 12, 13, 28, 29, 30, 31, 32, 133, 160, 5760, 8232, 8233, 8239, 8287, 12288}
                            || 8192 <= c as int <= 8202
  {
  }

  predicate Clean(line: string) { forall i :: 0 <= i < |line| ==> !IsBreak(line[i]) }

  /** not line.strip() */
  predicate Blank(line: string)
    ensures Blank(line) <==> forall c :: c in line ==> IsSpace(c)
  {
    forall i :: 0 <= i < |line| ==> IsSpace(line[i])
  }

  function FirstBreak(s: string): (k: nat)
    ensures k <= |s| && Clean(s[..k]) && (k < |s| ==> IsBreak(s[k]))
  {
    if s == [] || IsBreak(s[0]) then 0
    else
      assert forall i :: 0 < i <= FirstBreak(s[1..]) ==> s[i] == s[1..][i - 1] || i == |s|;
      1 + FirstBreak(s[1..])
  }

  /** A carriage return and the newline after it are one break. */
  function Width(s: string, k: nat): (w: nat)
    requires k < |s|
    ensures k + w <= |s| && w >= 1
  {
    if s[k] == '\r' && k + 1 < |s| && s[k + 1] == '\n' then 2 else 1
  }

  function Lines(s: string): seq<string>
    decreases |s|
  {
    if s == [] then []
    else
      var k := FirstBreak(s);
      if k == |s| then [s] else [s[..k]] + Lines(s[k + Width(s, k)..])
  }

  /** Each line with a newline behind it. */
  function Written(lines: seq<string>): string {
    if lines == [] then [] else lines[0] + "\n" + Written(lines[1..])
  }

  predicate Terminated(s: string) { s == [] || IsBreak(s[|s| - 1]) }

  predicate AllClean(lines: seq<string>) { forall i :: 0 <= i < |lines| ==> Clean(lines[i]) }

  /** A break: one character, or a carriage return with its newline. */
  predicate IsBreakText(b: string) { b == "\r\n" || (|b| == 1 && IsBreak(b[0])) }

  lemma FirstBreakIs(line: string, b: string, rest: string)
    requires Clean(line) && IsBreakText(b)
    ensures FirstBreak(line + b + rest) == |line|
  {
    var s := line + b + rest;
    var k := FirstBreak(s);
    assert s[|line|] == b[0];
    assert forall i :: 0 <= i < |line| ==> s[i] == line[i];
    assert forall i :: 0 <= i < k ==> s[..k][i] == s[i];
  }

  /** The first line of a text, and the lines behind it. */
  lemma FirstLine(line: string, b: string, rest: string)
    requires Clean(line) && IsBreakText(b) && (b == "\r" ==> rest == [] || rest[0] != '\n')
    ensures Lines(line + b + rest) == [line] + Lines(rest)
  {
    var s := line + b + rest;
    FirstBreakIs(line, b, rest);
    assert s[..|line|] == line && s[|line|] == b[0];
    assert |b| == 2 ==> s[|line| + 1] == '\n';
    assert Width(s, |line|) == |b|;
    assert s[|line| + |b|..] == rest;
  }

  /** A text that holds a break, taken apart at the first one. */
  lemma Apart(s: string) returns (line: string, b: string, rest: string)
    requires FirstBreak(s) < |s|
    ensures s == line + b + rest && |rest| < |s|
    ensures Clean(line) && IsBreakText(b) && (b == "\r" ==> rest == [] || rest[0] != '\n')
    ensures Lines(s) == [line] + Lines(rest)
    ensures s[|s| - 1] == if rest == [] then b[|b| - 1] else rest[|rest| - 1]
    ensures Terminated(s) <==> Terminated(rest)
  {
    var k := FirstBreak(s);
    line, b, rest := s[..k], s[k..k + Width(s, k)], s[k + Width(s, k)..];
  }

  lemma Regroup(line: string, b: string, rest: string, more: string)
    ensures line + b + rest + more == line + b + (rest + more)
  {}

  lemma {:induction false} LinesAreClean(s: string)
    ensures AllClean(Lines(s))
    decreases |s|
  {
    if s != [] {
      var k := FirstBreak(s);
      if k < |s| {
        LinesAreClean(s[k + Width(s, k)..]);
      } else {
        assert s[..k] == s;
      }
    }
  }

  /** Cutting a text behind a break cuts its lines there, unless the cut splits a carriage return from its newline. */
  lemma {:induction false} LinesAppend(a: string, b: string)
    requires Terminated(a)
    requires a == [] || b == [] || a[|a| - 1] != '\r' || b[0] != '\n'
    ensures Lines(a + b) == Lines(a) + Lines(b)
    decreases |a|
  {
    if a == [] {
      assert a + b == b;
    } else {
      HasBreak(a);
      var line, br, rest := Apart(a);
      LinesAppend(rest, b);
      Regroup(line, br, rest, b);
      FirstLine(line, br, rest + b);
      Cons(line, Lines(rest), Lines(b));
    }
  }

  lemma HasBreak(s: string)
    requires s != [] && Terminated(s)
    ensures FirstBreak(s) < |s|
  {
    assert s[..|s|] == s;
  }

  lemma Cons(x: string, a: seq<string>, b: seq<string>)
    ensures [x] + (a + b) == [x] + a + b
  {}

  lemma OneLine(line: string, rest: string)
    requires Clean(line)
    ensures Lines(line + "\n" + rest) == [line] + Lines(rest)
  {
    FirstLine(line, "\n", rest);
  }

  /** What is written line by line reads back as the same lines exactly when no line contains a character
      splitlines cuts at. */
  lemma RoundTrip(lines: seq<string>)
    ensures Lines(Written(lines)) == lines <==> AllClean(lines)
  {
    LinesAreClean(Written(lines));
    if AllClean(lines) {
      ReadsBack(lines);
    }
  }

  lemma {:induction false} ReadsBack(lines: seq<string>)
    requires AllClean(lines)
    ensures Lines(Written(lines)) == lines && Terminated(Written(lines))
  {
    if lines != [] {
      ReadsBack(lines[1..]);
      OneLine(lines[0], Written(lines[1..]));
    }
  }

  /** json.dumps with ensure_ascii=False leaves the line separator U+2028 alone, so a record that holds one is
      written as one line and read back as two. */
  lemma SeparatorSplitsALine(before: string, after: string)
    requires Clean(before) && Clean(after)
    ensures Lines(Written([before + "\U{2028}" + after])) == [before, after]
  {
    WrittenOne(before + "\U{2028}" + after);
    Regroup(before, "\U{2028}", after, "\n");
    FirstLine(before, "\U{2028}", after + "\n");
    WrittenOne(after);
    ReadsBack([after]);
  }

  lemma WrittenOne(line: string)
    ensures Written([line]) == line + "\n"
  {
    assert line + "\n" + Written([]) == line + "\n";
  }

  // ---------------------------------------------------------------- appending

  /** Text appended behind an unfinished line becomes part of that line. */
  lemma {:induction false} Glued(s: string, t: string)
    requires !Terminated(s) && Clean(t)
    ensures Lines(s) != []
    ensures var n := |Lines(s)| - 1; Lines(s + t + "\n") == Lines(s)[..n] + [Lines(s)[n] + t]
    decreases |s|
  {
    if FirstBreak(s) == |s| {
      GluedOnly(s, t);
    } else {
      var line, br, rest := Apart(s);
      Glued(rest, t);
      Regroup(line, br, rest, t);
      Regroup(line, br, rest + t, "\n");
      FirstLine(line, br, rest + t + "\n");
      GluedCons(line, Lines(rest), t);
    }
  }

  lemma GluedCons(x: string, below: seq<string>, t: string)
    requires below != []
    ensures var n, all := |below| - 1, [x] + below;
            [x] + (below[..n] + [below[n] + t]) == all[..n + 1] + [all[n + 1] + t]
  {
  }

  lemma GluedOnly(s: string, t: string)
    requires s != [] && FirstBreak(s) == |s| && Clean(t)
    ensures Lines(s) == [s] && Lines(s + t + "\n") == [s][..0] + [s + t]
  {
    assert s[..|s|] == s && s + t + "\n" == (s + t) + "\n" + "";
    OneLine(s + t, "");
  }

  lemma AppendsCleanLines(s: string, texts: seq<string>)
    requires Terminated(s) && AllClean(texts) && texts != [] && texts[0] != []
    ensures Lines(s + Written(texts)) == Lines(s) + texts && Terminated(s + Written(texts))
  {
    assert texts[0][0] == Written(texts)[0] && !IsBreak(texts[0][0]);
    LinesAppend(s, Written(texts));
    ReadsBack(texts);
  }

  lemma Behind(s: string, line: string, more: string)
    ensures s + (line + "\n" + more) == s + line + "\n" + more
    ensures Terminated(s + line + "\n") && s + line + "\n" + "" == s + line + "\n"
  {}

  lemma GluedLines(s: string, texts: seq<string>)
    requires !Terminated(s) && AllClean(texts) && texts != [] && (|texts| > 1 ==> texts[1] != [])
    ensures |Lines(s + Written(texts))| == |Lines(s)| + |texts| - 1
  {
    var front, rest := s + texts[0] + "\n", texts[1..];
    Glued(s, texts[0]);
    Behind(s, texts[0], Written(rest));
    if rest != [] {
      AppendsCleanLines(front, rest);
    }
  }

  /** Appending adds exactly the lines it writes if and only if the file was left terminated and none of them
      contains a character splitlines cuts at. JSON text is never empty. */
  lemma AppendsExactlyWhen(s: string, texts: seq<string>)
    requires texts != [] && forall i :: 0 <= i < |texts| ==> texts[i] != []
    ensures Lines(s + Written(texts)) == Lines(s) + texts <==> Terminated(s) && AllClean(texts)
  {
    var whole := Lines(s + Written(texts));
    LinesAreClean(s + Written(texts));
    assert whole == Lines(s) + texts ==> forall i :: 0 <= i < |texts| ==> whole[|Lines(s)| + i] == texts[i];
    if AllClean(texts) {
      if Terminated(s) {
        AppendsCleanLines(s, texts);
      } else {
        GluedLines(s, texts);
      }
    }
  }

  // ---------------------------------------------------------------- lines that are not blank

  function NonBlank(lines: seq<string>): (r: seq<string>)
  {
    if lines == [] then [] else (if Blank(lines[0]) then [] else [lines[0]]) + NonBlank(lines[1..])
  }

  lemma NonBlankNext(lines: seq<string>, n: nat)
    requires n < |lines|
    ensures NonBlank(lines[..n + 1]) == NonBlank(lines[..n]) + if Blank(lines[n]) then [] else [lines[n]]
  {
    assert lines[..n + 1] == lines[..n] + [lines[n]];
    NonBlankConcat(lines[..n], [lines[n]]);
    NonBlankOne(lines[n]);
  }

  lemma NonBlankPrefix(lines: seq<string>, n: nat)
    requires n <= |lines|
    ensures NonBlank(lines[..n]) <= NonBlank(lines)
  {
    assert lines == lines[..n] + lines[n..];
    NonBlankConcat(lines[..n], lines[n..]);
  }

  lemma NonBlankOne(line: string)
    ensures NonBlank([line]) == if Blank(line) then [] else [line]
  {
    assert [line][1..] == [];
  }

  lemma {:induction false} NonBlankConcat(a: seq<string>, b: seq<string>)
    ensures NonBlank(a + b) == NonBlank(a) + NonBlank(b)
  {
    if a == [] {
      assert a + b == b;
    } else {
      assert (a + b)[1..] == a[1..] + b;
      NonBlankConcat(a[1..], b);
    }
  }

  lemma {:induction false} WrittenNext(lines: seq<string>, n: nat)
    requires n < |lines|
    ensures Written(lines[..n + 1]) == Written(lines[..n]) + lines[n] + "\n"
  {
    if n == 0 {
      assert lines[..1][1..] == [];
    } else {
      WrittenNext(lines[1..], n - 1);
      assert lines[..n + 1][1..] == lines[1..][..n] && lines[..n][1..] == lines[1..][..n - 1];
    }
  }
}
