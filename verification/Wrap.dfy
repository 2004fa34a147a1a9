/** Greedy word wrap: the words in order, overlong lines only for overlong words, and no
    layout with fewer lines. */
module Wrap {
  import opened Splits
  import opened Text

  // --- Words ------------------------------------------------------------------------------

  function SkipBlanks(s: string, p: nat): (q: nat)
    requires p <= |s|
    ensures p <= q <= |s| && (q < |s| ==> s[q] != ' ')
    decreases |s| - p
  {
    if p < |s| && s[p] == ' ' then SkipBlanks(s, p + 1) else p
  }

  function WordEnd(s: string, p: nat): (q: nat)
    requires p <= |s|
    ensures p <= q <= |s| && (q < |s| ==> s[q] == ' ') && (p < |s| && s[p] != ' ' ==> p < q)
    decreases |s| - p
  {
    if p < |s| && s[p] != ' ' then WordEnd(s, p + 1) else p
  }

  /** The maximal runs of characters other than spaces, from `p` on. */
  function Words(s: string, p: nat): (r: seq<string>)
    requires p <= |s|
    decreases |s| - p
  {
    var start := SkipBlanks(s, p);
    if start == |s| then [] else [s[start..WordEnd(s, start)]] + Words(s, WordEnd(s, start))
  }

  // --- Layouts -----------------------------------------------------------------------------

  type Line = seq<string>

  function Chars(line: Line): nat {
    if line == [] then 0 else Chars(line[..|line| - 1]) + |line[|line| - 1]|
  }

  function Indent(i: nat, first: nat, hanging: nat): nat { if i == 0 then first else hanging }

  /** The column after a line: its indent, its words and the spaces between them. */
  function Column(line: Line, indent: nat): int { indent + Chars(line) + |line| - 1 }

  /** A layout breaks only between words, and lets a line exceed the width only when it
      holds a single word. */
  ghost predicate Acceptable(lines: seq<Line>, first: nat, hanging: nat, width: nat) {
    forall i | 0 <= i < |lines| ::
      lines[i] != [] && (|lines[i]| > 1 ==> Column(lines[i], Indent(i, first, hanging)) <= width)
  }

  /** No line has room for the first word of the next one. */
  ghost predicate Tight(lines: seq<Line>, first: nat, hanging: nat, width: nat) {
    forall i | 0 < i < |lines| ::
      lines[i] != [] && Column(lines[i - 1], Indent(i - 1, first, hanging)) + 1 + |lines[i][0]| > width
  }

  /** One more word, on the last line if it fits there. */
  function AddWord(lines: seq<Line>, word: string, first: nat, hanging: nat, width: nat): seq<Line> {
    if lines == [] then [[word]] else
    var n := |lines| - 1;
    if Column(lines[n], Indent(n, first, hanging)) + 1 + |word| > width then lines + [[word]]
    else lines[n := lines[n] + [word]]
  }

  function Fill(words: seq<string>, first: nat, hanging: nat, width: nat): seq<Line> {
    if words == [] then [] else
    AddWord(Fill(words[..|words| - 1], first, hanging, width), words[|words| - 1], first, hanging, width)
  }

  lemma {:induction false} ColumnSnoc(line: Line, word: string, indent: nat)
    ensures Column(line + [word], indent) == Column(line, indent) + 1 + |word|
  {
    assert (line + [word])[..|line|] == line;
  }

  lemma {:induction false} FlattenAdd(lines: seq<Line>, word: string, first: nat, hanging: nat, width: nat)
    ensures Flatten(AddWord(lines, word, first, hanging, width)) == Flatten(lines) + [word]
  {
    if lines == [] {
      assert [] + [[word]] == [[word]];
      FlattenSnoc([], [word]);
    } else {
      FlattenSnoc(lines, [word]);
      FlattenGrow(lines, word);
    }
  }

  lemma {:induction false} AddWordKeeps(lines: seq<Line>, word: string, first: nat, hanging: nat, width: nat)
    requires Acceptable(lines, first, hanging, width) && Tight(lines, first, hanging, width)
    ensures var more := AddWord(lines, word, first, hanging, width);
            Acceptable(more, first, hanging, width) && Tight(more, first, hanging, width)
  {
    if lines != [] { ColumnSnoc(lines[|lines| - 1], word, Indent(|lines| - 1, first, hanging)); }
  }

  lemma {:induction false} FillFlattens(words: seq<string>, first: nat, hanging: nat, width: nat)
    ensures Flatten(Fill(words, first, hanging, width)) == words
  {
    if words != [] {
      var n := |words| - 1;
      FillFlattens(words[..n], first, hanging, width);
      FlattenAdd(Fill(words[..n], first, hanging, width), words[n], first, hanging, width);
      assert words[..n] + [words[n]] == words;
    }
  }

  lemma {:induction false} FillShape(words: seq<string>, first: nat, hanging: nat, width: nat)
    ensures var lines := Fill(words, first, hanging, width);
            Acceptable(lines, first, hanging, width) && Tight(lines, first, hanging, width)
  {
    if words != [] {
      var n := |words| - 1;
      FillShape(words[..n], first, hanging, width);
      AddWordKeeps(Fill(words[..n], first, hanging, width), words[n], first, hanging, width);
    }
  }

  /** The filled lines hold the words in order, exceed the width only with one word, and
      each is full. */
  lemma {:induction false} FillGood(words: seq<string>, first: nat, hanging: nat, width: nat)
    ensures var lines := Fill(words, first, hanging, width);
            Flatten(lines) == words && Acceptable(lines, first, hanging, width) && Tight(lines, first, hanging, width)
  {
    FillFlattens(words, first, hanging, width);
    FillShape(words, first, hanging, width);
  }

  // --- No layout has fewer lines ---------------------------------------------------------------

  /** A part of a line is no wider than the line. */
  lemma {:induction false} PartNoWider(line: Line, a: nat, b: nat, indent: nat)
    requires a < b <= |line|
    ensures Column(line[a..b], indent) <= Column(line, indent)
  {
    CharsSplit(line[..b], a);
    CharsSplit(line, b);
    assert line[..b][a..] == line[a..b];
  }

  lemma {:induction false} CharsSplit(line: Line, a: nat)
    requires a <= |line|
    ensures Chars(line) == Chars(line[..a]) + Chars(line[a..])
  {
    if a == |line| {
      assert line[..a] == line && line[a..] == [];
    } else {
      var n := |line| - 1;
      CharsSplit(line[..n], a);
      assert line[..n][..a] == line[..a] && line[..n][a..] == line[a..][..n - a];
    }
  }

  /** Full lines stay ahead of every acceptable layout of the same words. */
  lemma {:induction false} StaysAhead(full: seq<Line>, lines: seq<Line>, k: nat, first: nat, hanging: nat, width: nat)
    requires Flatten(full) == Flatten(lines)
    requires Acceptable(full, first, hanging, width) && Tight(full, first, hanging, width)
    requires Acceptable(lines, first, hanging, width)
    requires k <= |full| && k <= |lines|
    ensures Before(full, k) >= Before(lines, k)
  {
    if k > 0 {
      StaysAhead(full, lines, k - 1, first, hanging, width);
      BeforeGrows(lines, k, |lines|);
      if Before(full, k) < Before(lines, k) {
        PartInFlatten(lines, k - 1);
        PartInFlatten(full, k - 1);
        FlattenLength(full);
        FlattenLength(lines);
        if k < |full| {
          PartInFlatten(full, k);
          Overfull(Flatten(full), lines[k - 1], Before(lines, k - 1), Before(full, k - 1), Before(full, k),
                   Indent(k - 1, first, hanging));
        }
      }
    }
  }

  /** A line of `words` from `p` on that reaches past `b` is at least as wide as
      `words[a..b]` with one more word. */
  lemma {:induction false} Overfull(words: seq<string>, line: Line, p: nat, a: nat, b: nat, indent: nat)
    requires p <= a < b < p + |line| <= |words| && line == words[p..p + |line|]
    ensures Column(line, indent) >= Column(words[a..b], indent) + 1 + |words[b]|
  {
    PartNoWider(line, a - p, b + 1 - p, indent);
    SliceOfSlice(words, p, p + |line|, a - p, b + 1 - p);
    assert words[a..b + 1] == words[a..b] + [words[b]];
    ColumnSnoc(words[a..b], words[b], indent);
  }

  /** No acceptable layout of the same words, at the same indents and width, has fewer
      lines than the greedy one. */
  lemma {:induction false} FewestLines(words: seq<string>, lines: seq<Line>, first: nat, hanging: nat, width: nat)
    requires Flatten(lines) == words && Acceptable(lines, first, hanging, width)
    ensures |Fill(words, first, hanging, width)| <= |lines|
  {
    var full := Fill(words, first, hanging, width);
    FillGood(words, first, hanging, width);
    if |lines| < |full| {
      StaysAhead(full, lines, |lines|, first, hanging, width);
      FlattenLength(full);
      FlattenLength(lines);
      BeforeGrows(full, |lines| + 1, |full|);
    }
  }

  // --- The text --------------------------------------------------------------------------------

  function Joined(line: Line): string {
    if line == [] then "" else
    var n := |line| - 1;
    if n == 0 then line[0] else Joined(line[..n]) + " " + line[n]
  }

  /** Lines with their indents, the last one not yet ended. */
  function Body(lines: seq<Line>, first: nat, hanging: nat): string {
    if lines == [] then "" else
    var n := |lines| - 1;
    Body(lines[..n], first, hanging) + (if n == 0 then "" else "\n") + Repeat(' ', Indent(n, first, hanging))
        + Joined(lines[n])
  }

  function Wrapped(text: string, first: nat, hanging: nat, width: nat): string {
    var words := Words(text, 0);
    if words == [] then "" else Body(Fill(words, first, hanging, width), first, hanging) + "\n"
  }

  /** The column after a line is how many characters it takes. */
  lemma {:induction false} ColumnTells(line: Line, indent: nat)
    requires line != []
    ensures |Repeat(' ', indent) + Joined(line)| == Column(line, indent)
  {
    var n := |line| - 1;
    if n == 0 {
      assert Chars(line[..0]) == 0;
    } else {
      ColumnTells(line[..n], indent);
    }
  }

  /** The first line has the first indent and every later one the hanging indent. */
  lemma {:induction false} BodyTells(lines: seq<Line>, first: nat, hanging: nat)
    requires lines != []
    ensures Body(lines, first, hanging)
         == Repeat(' ', first) + Joined(lines[0])
            + if |lines| == 1 then "" else "\n" + Body(lines[1..], hanging, hanging)
    decreases |lines|
  {
    var n := |lines| - 1;
    if n == 0 {
      assert lines[..0] == [];
      assert "" + "" + Repeat(' ', first) + Joined(lines[0]) + "" == Repeat(' ', first) + Joined(lines[0]) + "";
    } else {
      BodyTells(lines[..n], first, hanging);
      var last := "\n" + Repeat(' ', hanging) + Joined(lines[n]);
      var head := Repeat(' ', first) + Joined(lines[0]);
      assert Body(lines, first, hanging) == Body(lines[..n], first, hanging) + last by {
        Three(Body(lines[..n], first, hanging), "\n", Repeat(' ', hanging), Joined(lines[n]));
      }
      RestTells(lines, hanging, head, last);
    }
  }

  lemma {:induction false} Three(a: string, b: string, c: string, d: string)
    ensures a + b + c + d == a + (b + c + d)
  {
  }

  /** The last line after the others, below a first line `head`. */
  lemma {:induction false} RestTells(lines: seq<Line>, hanging: nat, head: string, last: string)
    requires |lines| > 1 && last == "\n" + Repeat(' ', hanging) + Joined(lines[|lines| - 1])
    ensures var fewer := lines[..|lines| - 1];
            head + (if |fewer| == 1 then "" else "\n" + Body(fewer[1..], hanging, hanging)) + last
              == head + ("\n" + Body(lines[1..], hanging, hanging))
  {
    var n := |lines| - 1;
    var more := lines[1..];
    assert more[..n - 1] == lines[..n][1..] && more[n - 1] == lines[n];
    var before := Body(more[..n - 1], hanging, hanging);
    if n == 1 {
      assert before == "" && Body(more, hanging, hanging) == Repeat(' ', hanging) + Joined(lines[n]);
      assert head + "" + last == head + ("\n" + (Repeat(' ', hanging) + Joined(lines[n])));
    } else {
      Three(before, "\n", Repeat(' ', hanging), Joined(lines[n]));
      assert Body(more, hanging, hanging) == before + last;
      assert head + ("\n" + before) + last == head + ("\n" + (before + last));
    }
  }

  // --- What a reader sees: line breaks and spaces both separate words ---------------------------

  function Spaced(s: string): (r: string)
    ensures |r| == |s|
  {
    seq(|s|, i requires 0 <= i < |s| => if s[i] == '\n' then ' ' else s[i])
  }

  function ReadWords(s: string): seq<string> { Words(Spaced(s), 0) }

  /** The words a reader sees in some words that may hold line breaks. */
  function ReadEach(words: seq<string>): seq<string> {
    if words == [] then [] else ReadEach(words[..|words| - 1]) + ReadWords(words[|words| - 1])
  }

  lemma {:induction false} BlanksBefore(s: string, a: string, p: nat)
    requires p <= |a| && a <= s && (|a| < |s| ==> s[|a|] == ' ')
    ensures SkipBlanks(a, p) < |a| ==> SkipBlanks(s, p) == SkipBlanks(a, p)
    ensures SkipBlanks(a, p) == |a| && |a| < |s| ==> SkipBlanks(s, p) == SkipBlanks(s, |a| + 1)
    ensures WordEnd(s, p) == WordEnd(a, p)
    decreases |a| - p
  {
    if p < |a| { BlanksBefore(s, a, p + 1); }
  }

  lemma {:induction false} WordsShift(s: string, k: nat, b: string, p: nat)
    requires k <= |s| && s[k..] == b && p <= |b|
    ensures Words(s, k + p) == Words(b, p)
    decreases |b| - p
  {
    CursorsShift(s, k, b, p);
    var start := SkipBlanks(b, p);
    if start < |b| {
      CursorsShift(s, k, b, start);
      var end := WordEnd(b, start);
      SliceOfSlice(s, k, |s|, start, end);
      assert b == s[k..|s|];
      assert s[k + start..k + end] == b[start..end];
      WordsShift(s, k, b, end);
    }
  }

  lemma {:induction false} CursorsShift(s: string, k: nat, b: string, p: nat)
    requires k <= |s| && s[k..] == b && p <= |b|
    ensures SkipBlanks(s, k + p) == k + SkipBlanks(b, p) && WordEnd(s, k + p) == k + WordEnd(b, p)
    decreases |b| - p
  {
    if p < |b| {
      assert s[k + p] == b[p];
      CursorsShift(s, k, b, p + 1);
    }
  }

  lemma {:induction false} FirstWordOfJoin(s: string, a: string, p: nat, start: nat, end: nat)
    requires p <= |a| && a <= s && (|a| < |s| ==> s[|a|] == ' ')
    requires start == SkipBlanks(a, p) < |a| && end == WordEnd(a, start)
    ensures Words(s, p) == [a[start..end]] + Words(s, end) && Words(a, p) == [a[start..end]] + Words(a, end)
  {
    BlanksBefore(s, a, p);
    BlanksBefore(s, a, start);
    assert s[start..end] == a[start..end];
  }

  lemma {:induction false} WordsOfJoin(a: string, b: string, p: nat)
    requires p <= |a|
    ensures Words(a + " " + b, p) == Words(a, p) + Words(b, 0)
    decreases |a| - p
  {
    var s := a + " " + b;
    var start := SkipBlanks(a, p);
    if start == |a| {
      LastWordOfJoin(s, a, b, p);
    } else {
      var end := WordEnd(a, start);
      FirstWordOfJoin(s, a, p, start, end);
      WordsOfJoin(a, b, end);
      WordsAssoc([a[start..end]], Words(a, end), Words(b, 0));
    }
  }

  lemma {:induction false} WordsAssoc(a: seq<string>, b: seq<string>, c: seq<string>)
    ensures a + (b + c) == a + b + c
  {
  }

  lemma {:induction false} LastWordOfJoin(s: string, a: string, b: string, p: nat)
    requires p <= |a| && SkipBlanks(a, p) == |a| && s == a + " " + b
    ensures Words(s, p) == Words(a, p) + Words(b, 0)
  {
    BlanksBefore(s, a, p);
    WordsShift(s, |a| + 1, b, 0);
    assert Words(a, p) == [] && [] + Words(b, 0) == Words(b, 0);
  }

  lemma {:induction false} ReadJoin(a: string, c: char, b: string)
    requires c == ' ' || c == '\n'
    ensures ReadWords(a + [c] + b) == ReadWords(a) + ReadWords(b)
  {
    assert Spaced(a + [c] + b) == Spaced(a) + " " + Spaced(b);
    WordsOfJoin(Spaced(a), Spaced(b), 0);
  }

  lemma {:induction false} ReadIndent(n: nat, b: string)
    ensures ReadWords(Repeat(' ', n) + b) == ReadWords(b)
  {
    if n == 0 {
      assert Repeat(' ', 0) + b == b;
    } else {
      assert Repeat(' ', n) + b == "" + [' '] + (Repeat(' ', n - 1) + b);
      ReadJoin("", ' ', Repeat(' ', n - 1) + b);
      ReadIndent(n - 1, b);
    }
  }

  lemma {:induction false} ReadJoined(line: Line)
    ensures ReadWords(Joined(line)) == ReadEach(line)
  {
    if line != [] {
      var n := |line| - 1;
      ReadJoined(line[..n]);
      if n > 0 { ReadJoin(Joined(line[..n]), ' ', line[n]); }
    }
  }

  lemma {:induction false} ReadEachAppend(a: seq<string>, b: seq<string>)
    ensures ReadEach(a + b) == ReadEach(a) + ReadEach(b)
  {
    if b == [] {
      assert a + b == a;
    } else {
      var n := |b| - 1;
      assert (a + b)[..|a + b| - 1] == a + b[..n];
      ReadEachAppend(a, b[..n]);
      WordsAssoc(ReadEach(a), ReadEach(b[..n]), ReadWords(b[n]));
    }
  }

  lemma {:induction false} BodyIs(lines: seq<Line>, first: nat, hanging: nat, line: string)
    requires lines != [] && line == Repeat(' ', Indent(|lines| - 1, first, hanging)) + Joined(lines[|lines| - 1])
    ensures Body(lines, first, hanging)
         == if |lines| == 1 then line else Body(lines[..|lines| - 1], first, hanging) + ['\n'] + line
  {
    var n := |lines| - 1;
    Three(Body(lines[..n], first, hanging), if n == 0 then "" else "\n", Repeat(' ', Indent(n, first, hanging)),
          Joined(lines[n]));
    if n == 0 { assert lines[..n] == [] && "" + ("" + line) == line; }
  }

  lemma {:induction false} ReadBody(lines: seq<Line>, first: nat, hanging: nat)
    ensures ReadWords(Body(lines, first, hanging)) == ReadEach(Flatten(lines))
  {
    if lines != [] {
      var n := |lines| - 1;
      var line := Repeat(' ', Indent(n, first, hanging)) + Joined(lines[n]);
      ReadBody(lines[..n], first, hanging);
      ReadIndent(Indent(n, first, hanging), Joined(lines[n]));
      ReadJoined(lines[n]);
      ReadEachAppend(Flatten(lines[..n]), lines[n]);
      BodyIs(lines, first, hanging, line);
      if n > 0 { ReadJoin(Body(lines[..n], first, hanging), '\n', line); }
    }
  }

  /** The words of a text, seen by a reader, are those of its space-separated words. */
  lemma {:induction false} ReadText(s: string, p: nat)
    requires p <= |s|
    ensures ReadWords(s[p..]) == ReadEach(Words(s, p))
    decreases |s| - p
  {
    var start := SkipBlanks(s, p);
    SpacesSkipped(s, p);
    if start == |s| {
      assert s[start..] == "" && Spaced("") == "";
    } else {
      var end := WordEnd(s, start);
      ReadText(s, end);
      ReadFirst(s, start, end);
      ReadEachCons(s[start..end], Words(s, end));
    }
  }

  lemma {:induction false} ReadEachCons(word: string, more: seq<string>)
    ensures ReadEach([word] + more) == ReadWords(word) + ReadEach(more)
  {
    ReadEachAppend([word], more);
    assert [word][..0] == [] && ReadEach([word]) == ReadEach([]) + ReadWords(word);
  }

  lemma {:induction false} ReadFirst(s: string, start: nat, end: nat)
    requires start <= end <= |s| && (end < |s| ==> s[end] == ' ')
    ensures ReadWords(s[start..]) == ReadWords(s[start..end]) + ReadWords(s[end..])
  {
    if end < |s| {
      SpacesSkippedOne(s, end);
      assert s[start..] == s[start..end] + [' '] + s[end + 1..];
      ReadJoin(s[start..end], ' ', s[end + 1..]);
    } else {
      assert s[start..] == s[start..end] && s[end..] == "" && Spaced("") == "";
    }
  }

  lemma {:induction false} SpacesSkippedOne(s: string, p: nat)
    requires p < |s| && s[p] == ' '
    ensures ReadWords(s[p..]) == ReadWords(s[p + 1..])
  {
    assert s[p..] == "" + [' '] + s[p + 1..];
    ReadJoin("", ' ', s[p + 1..]);
  }

  lemma {:induction false} SpacesSkipped(s: string, p: nat)
    requires p <= |s|
    ensures ReadWords(s[p..]) == ReadWords(s[SkipBlanks(s, p)..])
    decreases |s| - p
  {
    if p < |s| && s[p] == ' ' {
      SpacesSkippedOne(s, p);
      SpacesSkipped(s, p + 1);
    }
  }

  /** A reader sees the same words in the wrapped text as in the text. */
  lemma {:induction false} WrappedReadsSame(text: string, first: nat, hanging: nat, width: nat)
    ensures ReadWords(Wrapped(text, first, hanging, width)) == ReadWords(text)
  {
    var words := Words(text, 0);
    ReadText(text, 0);
    assert text[0..] == text;
    if words != [] {
      var body := Body(Fill(words, first, hanging, width), first, hanging);
      ReadBody(Fill(words, first, hanging, width), first, hanging);
      FillFlattens(words, first, hanging, width);
      ReadJoin(body, '\n', "");
      assert body + ['\n'] + "" == body + "\n" && Spaced("") == "";
    } else {
      assert Spaced("") == "";
    }
  }

  // --- The loop ----------------------------------------------------------------------------------

  /** The words before `p`, and the one from `start` to `end`, if there is one. */
  lemma {:induction false} NextOfText(s: string, words: seq<string>, p: nat, start: nat, end: nat)
    requires p <= |s| && Words(s, 0) == words + Words(s, p) && start == SkipBlanks(s, p) && end == WordEnd(s, start)
    ensures if end == start then Words(s, 0) == words else Words(s, 0) == words + [s[start..end]] + Words(s, end)
  {
    if end == start { assert words + [] == words; }
  }

  /** What one more word adds to the text. */
  lemma {:induction false} BodyAdd(lines: seq<Line>, word: string, first: nat, hanging: nat, width: nat)
    requires forall line <- lines :: line != []
    ensures var more := AddWord(lines, word, first, hanging, width);
            Body(more, first, hanging) == Body(lines, first, hanging)
              + (if lines == [] then Repeat(' ', first)
                 else if |more| > |lines| then "\n" + Repeat(' ', hanging)
                 else " ") + word
  {
    var more := AddWord(lines, word, first, hanging, width);
    var n := |more| - 1;
    assert Joined([word]) == word;
    if |more| == |lines| {
      var line := lines[n];
      assert line in lines && (line + [word])[..|line|] == line && more[..n] == lines[..n];
      assert Joined(line + [word]) == Joined(line) + " " + word;
      Reassociate(Body(lines[..n], first, hanging) + (if n == 0 then "" else "\n")
          + Repeat(' ', Indent(n, first, hanging)),
                  Joined(line), " ", word);
    } else {
      assert more[..n] == lines;
    }
  }

  lemma {:induction false} Reassociate(a: string, b: string, c: string, d: string)
    ensures a + (b + c + d) == a + b + c + d
  {
  }

  method DoSkip(text: string, start: nat) returns (pos: nat)
    requires start <= |text|
    ensures pos == SkipBlanks(text, start)
  {
    pos := start;
    while pos < |text| && text[pos] == ' '
      invariant pos <= |text| && SkipBlanks(text, pos) == SkipBlanks(text, start)
    {
      pos := pos + 1;
    }
  }

  method DoWordEnd(text: string, start: nat) returns (pos: nat)
    requires start <= |text|
    ensures pos == WordEnd(text, start)
  {
    pos := start;
    while pos < |text| && text[pos] != ' '
      invariant pos <= |text| && WordEnd(text, pos) == WordEnd(text, start)
    {
      pos := pos + 1;
    }
  }

  /** What the loop keeps: the words placed so far and the variables that go with them. */
  ghost predicate Placed(words: seq<string>, lines: seq<Line>, out: string, column: int, firstLine: bool,
                         first: nat, hanging: nat, width: nat) {
    && lines == Fill(words, first, hanging, width) && (lines == [] <==> words == [])
    && out == Body(lines, first, hanging) && firstLine == (|lines| <= 1)
    && (lines != [] ==> column == Column(lines[|lines| - 1], Indent(|lines| - 1, first, hanging)))
  }

  /** One word: on a new line, or after a space on the line it fits on. */
  method Place(out: string, column: int, firstWord: bool, firstLine: bool, word: string, first: nat, hanging: nat,
               width: nat,
               ghost words: seq<string>, ghost lines: seq<Line>)
      returns (out': string, column': int, firstLine': bool)
    requires Placed(words, lines, out, column, firstLine, first, hanging, width) && firstWord == (lines == [])
    ensures Placed(words + [word], AddWord(lines, word, first, hanging, width), out', column', firstLine', first,
            hanging, width)
    ensures |out'| >= |word|
  {
    FillShape(words, first, hanging, width);
    BodyAdd(lines, word, first, hanging, width);
    assert (words + [word])[..|words|] == words;
    assert Chars([word]) == Chars([]) + |word|;
    if lines != [] { ColumnSnoc(lines[|lines| - 1], word, Indent(|lines| - 1, first, hanging)); }
    firstLine' := firstLine;
    var indent := if firstLine then first else hanging;
    if firstWord {
      out', column' := out + Repeat(' ', indent), indent;
    } else if column + 1 + |word| > width {
      out', column' := out + ("\n" + Repeat(' ', hanging)), hanging;
      firstLine' := false;
    } else {
      out', column' := out + " ", column + 1;
    }
    out', column' := out' + word, column' + |word|;
  }

  method WrapText(text: string, first: nat, hanging: nat, width: nat) returns (out: string)
    ensures out == Wrapped(text, first, hanging, width)
  {
    out := "";
    var column: int := 0;
    var firstWord, firstLine := true, true;
    var pos := 0;
    ghost var words: seq<string> := [];
    ghost var lines: seq<Line> := [];
    while pos < |text|
      invariant pos <= |text| && Words(text, 0) == words + Words(text, pos)
      invariant Placed(words, lines, out, column, firstLine, first, hanging, width) && firstWord == (lines == [])
      invariant out == "" <==> words == []
    {
      var start := DoSkip(text, pos);
      ghost var before := pos;
      pos := DoWordEnd(text, start);
      NextOfText(text, words, before, start, pos);
      if pos == start { break; }
      var word := text[start..pos];
      out, column, firstLine := Place(out, column, firstWord, firstLine, word, first, hanging, width, words, lines);
      firstWord := false;
      words, lines := words + [word], AddWord(lines, word, first, hanging, width);
    }
    if pos == |text| { NextOfText(text, words, pos, pos, pos); }
    if out != "" { out := out + "\n"; }
  }

  method Paragraph(text: string, indent: nat, width: nat) returns (out: string)
    ensures out == Wrapped(text, indent, indent, width)
  {
    out := WrapText(text, indent, indent, width);
  }

  /** The text of a bullet: wrapped, with the second last blank before its first word marked. */
  method Bullet(text: string, indent: nat, width: nat) returns (body: string)
    ensures var plain := Wrapped(text, indent + 2, indent + 2, width);
            if Words(text, 0) == [] then body == ""
            else indent < |plain| && plain[indent] == ' ' && body == plain[indent := '-']
  {
    body := WrapText(text, indent + 2, indent + 2, width);
    var words := Words(text, 0);
    if words != [] {
      BodyStarts(Fill(words, indent + 2, indent + 2, width), indent + 2, indent + 2); FillFlattens(words, indent + 2,
          indent + 2, width);
    }
    if |body| > indent + 2 {
      body := body[indent := '-'];
    }
  }

  lemma {:induction false} BodyStarts(lines: seq<Line>, first: nat, hanging: nat)
    requires lines != []
    ensures Repeat(' ', first) <= Body(lines, first, hanging)
  {
    var n := |lines| - 1;
    if n > 0 { BodyStarts(lines[..n], first, hanging); }
  }
}
