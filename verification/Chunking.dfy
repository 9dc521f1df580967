/** Cutting a document into overlapping pieces for retrieval. */
module Chunking {
  import opened Common
  import opened Text

  /** Lines put together with newlines between them. */
  function Join(lines: seq<string>): string {
    if lines == [] then ""
    else if |lines| == 1 then lines[0]
    else Join(lines[..|lines| - 1]) + "\n" + lines[|lines| - 1]
  }

  /** The lines that say something, without surrounding white space. */
  function NonBlank(lines: seq<string>): seq<string> {
    if lines == [] then []
    else
      var rest, line := NonBlank(lines[..|lines| - 1]), Strip(lines[|lines| - 1]);
      if line == "" then rest else rest + [line]
  }

  // ----- splitting one section

  datatype Progress = Progress(parts: seq<string>, current: seq<string>)

  predicate Overflows(p: Progress, line: string, maxChars: nat) {
    p.current != [] && |Join(p.current)| + 1 + |line| > maxChars
  }

  /** Adding a line: a part that would overflow is finished, and its end is repeated in the next. */
  function Step(p: Progress, line: string, maxChars: nat, overlap: nat): Progress {
    if !Overflows(p, line, maxChars) then Progress(p.parts, p.current + [line])
    else
      var part := Strip(Join(p.current));
      var tail := LastN(part, overlap);
      Progress(p.parts + [part], if tail != "" then [tail, line] else [line])
  }

  /** The finished parts and the lines of the unfinished one, after the given lines. */
  function Run(lines: seq<string>, maxChars: nat, overlap: nat): Progress {
    if lines == [] then Progress([], [])
    else Step(Run(lines[..|lines| - 1], maxChars, overlap), lines[|lines| - 1], maxChars, overlap)
  }

  function Finish(p: Progress): seq<string> {
    if p.current == [] then p.parts else p.parts + [Strip(Join(p.current))]
  }

  function Split(text: string, maxChars: nat, overlap: nat): seq<string> {
    if |text| <= maxChars then (if Strip(text) != "" then [Strip(text)] else [])
    else Finish(Run(NonBlank(Lines(text)), maxChars, overlap))
  }

  function TotalLength(lines: seq<string>): nat {
    if lines == [] then 0 else TotalLength(lines[..|lines| - 1]) + |lines[|lines| - 1]|
  }

  lemma {:induction false} JoinLength(lines: seq<string>)
    requires lines != []
    ensures |Join(lines)| == TotalLength(lines) + |lines| - 1
  {
    if |lines| > 1 {
      JoinLength(lines[..|lines| - 1]);
    }
  }

  lemma JoinSnoc(lines: seq<string>, line: string)
    ensures Join(lines + [line]) == if lines == [] then line else Join(lines) + "\n" + line
  {
    var more := lines + [line];
    assert more[..|more| - 1] == lines && more[|more| - 1] == line;
  }

  method CleanLines(raw: seq<string>) returns (lines: seq<string>)
    ensures lines == NonBlank(raw)
  {
    lines := [];
    for i := 0 to |raw|
      invariant lines == NonBlank(raw[..i])
    {
      assert raw[..i + 1][..i] == raw[..i];
      if Strip(raw[i]) != "" {
        lines := lines + [Strip(raw[i])];
      }
    }
    assert raw[..|raw|] == raw;
  }

  method AddLine(parts: seq<string>, current: seq<string>, size: nat, line: string, maxChars: nat, overlap: nat)
    returns (parts': seq<string>, current': seq<string>, size': nat)
    requires size == |Join(current)|
    ensures Progress(parts', current') == Step(Progress(parts, current), line, maxChars, overlap)
    ensures size' == |Join(current')|
  {
    var additional := |line| + if current != [] then 1 else 0;
    if current != [] && size + additional > maxChars {
      var part := Strip(Join(current));
      var tail := LastN(part, overlap);
      parts' := parts + [part];
      current' := if tail != "" then [tail, line] else [line];
      size' := |tail| + |line| + |current'| - 1;
      JoinSnoc([tail], line);
      assert [tail] + [line] == [tail, line];
    } else {
      JoinSnoc(current, line);
      parts', current', size' := parts, current + [line], size + additional;
    }
  }

  method SplitContent(text: string, maxChars: nat, overlap: nat) returns (parts: seq<string>)
    ensures parts == Split(text, maxChars, overlap)
  {
    if |text| <= maxChars {
      return if Strip(text) != "" then [Strip(text)] else [];
    }
    var lines := CleanLines(Lines(text));
    parts := [];
    var current, size := [], 0;
    for i := 0 to |lines|
      invariant Progress(parts, current) == Run(lines[..i], maxChars, overlap)
      invariant size == |Join(current)|
    {
      assert lines[..i + 1][..i] == lines[..i];
      parts, current, size := AddLine(parts, current, size, lines[i], maxChars, overlap);
    }
    assert lines[..|lines|] == lines;
    if current != [] {
      parts := parts + [Strip(Join(current))];
    }
  }

  // ----- the split loses nothing

  /** The new lines of each part. */
  function Groups(lines: seq<string>, maxChars: nat, overlap: nat): (g: seq<seq<string>>)
    ensures lines != [] ==> g != []
  {
    if lines == [] then []
    else
      var init, line := lines[..|lines| - 1], lines[|lines| - 1];
      var before := Groups(init, maxChars, overlap);
      if init == [] || Overflows(Run(init, maxChars, overlap), line, maxChars) then before + [[line]]
      else before[..|before| - 1] + [before[|before| - 1] + [line]]
  }

  function Concat(groups: seq<seq<string>>): seq<string> {
    if groups == [] then [] else Concat(groups[..|groups| - 1]) + groups[|groups| - 1]
  }

  lemma {:induction false} GroupsPartitionLines(lines: seq<string>, maxChars: nat, overlap: nat)
    ensures Concat(Groups(lines, maxChars, overlap)) == lines
    ensures NoneEmpty(Groups(lines, maxChars, overlap))
  {
    if lines != [] {
      var init, line := lines[..|lines| - 1], lines[|lines| - 1];
      GroupsPartitionLines(init, maxChars, overlap);
      var before := Groups(init, maxChars, overlap);
      assert lines == init + [line];
      if init == [] || Overflows(Run(init, maxChars, overlap), line, maxChars) {
        OneMoreGroup(before, line);
      } else {
        LongerLastGroup(before, line);
      }
    }
  }

  lemma OneMoreGroup(groups: seq<seq<string>>, line: string)
    requires NoneEmpty(groups)
    ensures Concat(groups + [[line]]) == Concat(groups) + [line] && NoneEmpty(groups + [[line]])
  {
    assert (groups + [[line]])[..|groups|] == groups;
  }

  lemma LongerLastGroup(groups: seq<seq<string>>, line: string)
    requires groups != [] && NoneEmpty(groups)
    ensures var longer := groups[..|groups| - 1] + [groups[|groups| - 1] + [line]];
            Concat(longer) == Concat(groups) + [line] && NoneEmpty(longer)
  {
    var init, last := groups[..|groups| - 1], groups[|groups| - 1];
    var longer := init + [last + [line]];
    assert longer[..|longer| - 1] == init;
    assert Concat(init) + (last + [line]) == Concat(init) + last + [line];
  }

  predicate NoneEmpty(groups: seq<seq<string>>) {
    groups == [] || (NoneEmpty(groups[..|groups| - 1]) && groups[|groups| - 1] != [])
  }

  predicate Good(line: string) {
    line != "" && Stripped(line)
  }

  predicate AllGood(lines: seq<string>) {
    forall i :: 0 <= i < |lines| ==> Good(lines[i])
  }

  lemma {:induction false} NonBlankIsGood(lines: seq<string>)
    ensures AllGood(NonBlank(lines))
  {
    if lines != [] {
      NonBlankIsGood(lines[..|lines| - 1]);
      StripShape(lines[|lines| - 1]);
    }
  }

  /** What the part after the given ones repeats of the last of them. */
  function Carried(parts: seq<string>, overlap: nat): string {
    if parts == [] then "" else StripLeft(LastN(parts[|parts| - 1], overlap))
  }

  function Part(carried: string, own: seq<string>): string {
    if carried == "" then Join(own) else carried + "\n" + Join(own)
  }

  /** Each part is the end of the previous part followed by its own new lines. */
  predicate Chained(parts: seq<string>, groups: seq<seq<string>>, overlap: nat) {
    && |parts| == |groups|
    && (parts != [] ==>
          var k := |parts| - 1;
          && Chained(parts[..k], groups[..k], overlap)
          && parts[k] == Part(Carried(parts[..k], overlap), groups[k]))
  }

  /** The original lines, put back together from the parts alone. */
  function Recover(parts: seq<string>, overlap: nat): string {
    if parts == [] then ""
    else
      var k := |parts| - 1;
      var carried := Carried(parts[..k], overlap);
      var own := DropFirst(parts[k], if carried == "" then 0 else |carried| + 1);
      if k == 0 then own else Recover(parts[..k], overlap) + "\n" + own
  }

  function DropFirst(s: string, n: nat): string {
    if n <= |s| then s[n..] else ""
  }

  lemma {:induction false} JoinConcat(a: seq<string>, b: seq<string>)
    requires a != [] && b != []
    ensures Join(a + b) == Join(a) + "\n" + Join(b)
  {
    var whole := a + b;
    if |b| == 1 {
      assert whole[..|whole| - 1] == a && whole[|whole| - 1] == b[0];
    } else {
      var init, last := b[..|b| - 1], b[|b| - 1];
      JoinConcat(a, init);
      assert whole[..|whole| - 1] == a + init && whole[|whole| - 1] == last;
    }
  }

  lemma {:induction false} JoinIsGood(lines: seq<string>)
    requires lines != [] && AllGood(lines)
    ensures Good(Join(lines))
  {
    if |lines| > 1 {
      var init, last := lines[..|lines| - 1], lines[|lines| - 1];
      JoinIsGood(init);
      var text := Join(init) + "\n" + last;
      assert text[0] == Join(init)[0] && text[|text| - 1] == last[|last| - 1];
    } else {
      assert Good(lines[0]);
    }
  }

  /** Not empty and not ending in white space. */
  predicate EndsFirm(s: string) {
    s != "" && !IsSpace(s[|s| - 1])
  }

  lemma {:induction false} StripLeftThrough(s: string, rest: string)
    requires EndsFirm(s)
    ensures StripLeft(s + rest) == StripLeft(s) + rest && EndsFirm(StripLeft(s))
  {
    if IsSpace(s[0]) {
      assert (s + rest)[1..] == s[1..] + rest;
      StripLeftThrough(s[1..], rest);
    }
  }

  lemma StripOverlapped(tail: string, own: seq<string>)
    requires EndsFirm(tail) && own != [] && AllGood(own)
    ensures Strip(Join([tail] + own)) == StripLeft(tail) + "\n" + Join(own)
    ensures StripLeft(tail) != "" && EndsFirm(StripLeft(tail) + "\n" + Join(own))
  {
    JoinConcat([tail], own);
    JoinIsGood(own);
    var rest := "\n" + Join(own);
    assert tail + "\n" + Join(own) == tail + rest;
    StripLeftThrough(tail, rest);
    var text := StripLeft(tail) + rest;
    assert text[|text| - 1] == Join(own)[|Join(own)| - 1];
    assert StripRight(text) == text;
    assert StripLeft(tail) + "\n" + Join(own) == text;
  }

  /** The lines of the unfinished part: the repeated end of the last part, then the new ones. */
  function CurrentLines(parts: seq<string>, own: seq<string>, overlap: nat): seq<string> {
    if parts == [] || overlap == 0 then own else [LastN(parts[|parts| - 1], overlap)] + own
  }

  predicate LastFirm(parts: seq<string>) {
    parts == [] || EndsFirm(parts[|parts| - 1])
  }

  predicate RunShape(p: Progress, done: seq<seq<string>>, own: seq<string>, overlap: nat) {
    && Chained(p.parts, done, overlap) && LastFirm(p.parts)
    && own != [] && AllGood(own)
    && p.current == CurrentLines(p.parts, own, overlap)
  }

  lemma FinishedPart(parts: seq<string>, own: seq<string>, overlap: nat)
    requires LastFirm(parts) && own != [] && AllGood(own)
    ensures Strip(Join(CurrentLines(parts, own, overlap))) == Part(Carried(parts, overlap), own)
    ensures EndsFirm(Part(Carried(parts, overlap), own))
  {
    JoinIsGood(own);
    if parts == [] || overlap == 0 {
      StripOfStripped(Join(own));
    } else {
      var last := parts[|parts| - 1];
      var tail := LastN(last, overlap);
      assert tail[|tail| - 1] == last[|last| - 1];
      StripOverlapped(tail, own);
    }
  }

  lemma ChainedSnoc(parts: seq<string>, part: string, groups: seq<seq<string>>, own: seq<string>, overlap: nat)
    requires Chained(parts, groups, overlap) && part == Part(Carried(parts, overlap), own)
    ensures Chained(parts + [part], groups + [own], overlap)
  {
    assert (parts + [part])[..|parts|] == parts && (groups + [own])[..|groups|] == groups;
  }

  lemma CurrentPart(p: Progress, done: seq<seq<string>>, own: seq<string>, overlap: nat)
    requires RunShape(p, done, own, overlap)
    ensures var parts := p.parts + [Strip(Join(p.current))];
            Chained(parts, done + [own], overlap) && LastFirm(parts)
  {
    FinishedPart(p.parts, own, overlap);
    ChainedSnoc(p.parts, Strip(Join(p.current)), done, own, overlap);
  }

  lemma ShapeAfterStep(p: Progress, done: seq<seq<string>>, own: seq<string>, line: string, maxChars: nat, overlap: nat)
    requires RunShape(p, done, own, overlap) && Good(line)
    ensures var q := Step(p, line, maxChars, overlap);
            if Overflows(p, line, maxChars) then RunShape(q, done + [own], [line], overlap)
            else RunShape(q, done, own + [line], overlap)
  {
    if Overflows(p, line, maxChars) {
      CurrentPart(p, done, own, overlap);
      var part := Strip(Join(p.current));
      assert (p.parts + [part])[|p.parts|] == part;
    } else {
      var q := Step(p, line, maxChars, overlap);
      assert q.current == CurrentLines(q.parts, own + [line], overlap);
    }
  }

  lemma {:induction false} RunKeepsShape(lines: seq<string>, maxChars: nat, overlap: nat)
    requires lines != [] && AllGood(lines)
    ensures var groups := Groups(lines, maxChars, overlap);
            RunShape(Run(lines, maxChars, overlap), groups[..|groups| - 1], groups[|groups| - 1], overlap)
  {
    var init, line := lines[..|lines| - 1], lines[|lines| - 1];
    var before, after := Groups(init, maxChars, overlap), Groups(lines, maxChars, overlap);
    if init == [] {
      assert after == [[line]] && after[..0] == [];
    } else {
      RunKeepsShape(init, maxChars, overlap);
      var done, own := before[..|before| - 1], before[|before| - 1];
      ShapeAfterStep(Run(init, maxChars, overlap), done, own, line, maxChars, overlap);
      if Overflows(Run(init, maxChars, overlap), line, maxChars) {
        assert after[..|after| - 1] == before == done + [own];
      } else {
        assert after[..|after| - 1] == done;
      }
    }
  }

  lemma OwnTextIsBack(carried: string, own: seq<string>)
    ensures DropFirst(Part(carried, own), if carried == "" then 0 else |carried| + 1) == Join(own)
  {
  }

  lemma {:induction false} RecoverChained(parts: seq<string>, groups: seq<seq<string>>, overlap: nat)
    requires Chained(parts, groups, overlap) && NoneEmpty(groups)
    ensures Recover(parts, overlap) == Join(Concat(groups))
    ensures groups != [] ==> Concat(groups) != []
  {
    if parts != [] {
      var k := |parts| - 1;
      RecoverChained(parts[..k], groups[..k], overlap);
      OwnTextIsBack(Carried(parts[..k], overlap), groups[k]);
      if k > 0 {
        JoinConcat(Concat(groups[..k]), groups[k]);
      } else {
        assert Concat(groups) == [] + groups[0] == groups[0];
      }
    }
  }

  /** Dropping from each part of a long text what it repeats of the one before leaves exactly the lines
      that say something, in order. */
  lemma LongSplitLosesNothing(text: string, maxChars: nat, overlap: nat)
    requires |text| > maxChars
    ensures Recover(Split(text, maxChars, overlap), overlap) == Join(NonBlank(Lines(text)))
    ensures Chained(Split(text, maxChars, overlap), Groups(NonBlank(Lines(text)), maxChars, overlap), overlap)
  {
    var lines := NonBlank(Lines(text));
    var groups := Groups(lines, maxChars, overlap);
    GroupsPartitionLines(lines, maxChars, overlap);
    NonBlankIsGood(Lines(text));
    if lines != [] {
      RunKeepsShape(lines, maxChars, overlap);
      CurrentPart(Run(lines, maxChars, overlap), groups[..|groups| - 1], groups[|groups| - 1], overlap);
      assert groups == groups[..|groups| - 1] + [groups[|groups| - 1]];
      RunNeverEmpty(lines, maxChars, overlap);
    }
    RecoverChained(Split(text, maxChars, overlap), groups, overlap);
  }

  // ----- lines and white space

  lemma {:induction false} NonBlankConcat(a: seq<string>, b: seq<string>)
    ensures NonBlank(a + b) == NonBlank(a) + NonBlank(b)
  {
    if b == [] {
      assert a + b == a;
    } else {
      var whole := a + b;
      NonBlankConcat(a, b[..|b| - 1]);
      assert whole[..|whole| - 1] == a + b[..|b| - 1] && whole[|whole| - 1] == b[|b| - 1];
    }
  }

  lemma NonBlankOne(line: string)
    ensures NonBlank([line]) == if Strip(line) == "" then [] else [Strip(line)]
  {
    assert [line][..0] == [];
  }

  lemma NonBlankCons(line: string, rest: seq<string>)
    ensures NonBlank([line] + rest) == (if Strip(line) == "" then [] else [Strip(line)]) + NonBlank(rest)
  {
    NonBlankConcat([line], rest);
    NonBlankOne(line);
  }

  /** White space before a text opens no line that says something. */
  lemma SpaceBefore(t: string)
    requires t != "" && IsSpace(t[0])
    ensures NonBlank(Lines(t)) == NonBlank(Lines(t[1..]))
  {
    var u := t[1..];
    if IsLineBreak(t[0]) {
      BreakBefore(t);
    } else if u == "" {
      assert Lines(t) == [t];
      StripShape(t);
      NonBlankOne(t);
    } else {
      BlankBefore(t);
    }
  }

  lemma BreakBefore(t: string)
    requires t != "" && IsLineBreak(t[0])
    ensures NonBlank(Lines(t)) == NonBlank(Lines(t[1..]))
  {
    var u := t[1..];
    assert LineEnd(t) == 0 && t[..0] == "";
    if t[0] == '\r' && u != "" && u[0] == '\n' {
      assert LineEnd(u) == 0 && t[2..] == u[1..] && u[..0] == "";
      NonBlankCons("", Lines(u[1..]));
    } else {
      NonBlankCons("", Lines(u));
    }
  }

  lemma BlankBefore(t: string)
    requires |t| > 1 && IsSpace(t[0]) && !IsLineBreak(t[0])
    ensures NonBlank(Lines(t)) == NonBlank(Lines(t[1..]))
  {
    var u := t[1..];
    var n := LineEnd(u);
    assert LineEnd(t) == n + 1;
    assert Strip(t[..n + 1]) == Strip(u[..n]) by {
      assert t[..n + 1][1..] == u[..n];
    }
    var rest := AfterLine(u);
    assert AfterLine(t) == rest;
    LinesUnfold(u);
    LinesUnfold(t);
    NonBlankCons(u[..n], Lines(rest));
    NonBlankCons(t[..n + 1], Lines(rest));
  }

  /** What follows the first line and its line break. */
  function AfterLine(t: string): string {
    var n := LineEnd(t);
    if n == |t| then ""
    else if t[n] == '\r' && n + 1 < |t| && t[n + 1] == '\n' then t[n + 2..]
    else t[n + 1..]
  }

  lemma LinesUnfold(t: string)
    requires t != ""
    ensures Lines(t) == [t[..LineEnd(t)]] + Lines(AfterLine(t)) && |AfterLine(t)| < |t|
  {
    if LineEnd(t) == |t| {
      assert t[..|t|] == t;
    }
  }

  /** White space after a text opens no line that says something. */
  lemma {:induction false} SpaceAfter(t: string)
    requires t != "" && IsSpace(t[|t| - 1])
    ensures NonBlank(Lines(t)) == NonBlank(Lines(t[..|t| - 1]))
    decreases |t|
  {
    var u, c, n := t[..|t| - 1], t[|t| - 1], LineEnd(t);
    LinesUnfold(t);
    var rest := AfterLine(t);
    if n == |t| {
      LineEndAt(u, "");
      assert u + "" == u && u + [c] == t;
      StripSnocSpace(u, c);
      NonBlankOne(t);
      NonBlankOne(u);
    } else if rest == "" {
      LastLineOnly(t);
    } else {
      ShorterTail(t);
      SpaceAfter(rest);
      LinesUnfold(u);
      NonBlankCons(t[..n], Lines(rest));
      NonBlankCons(t[..n], Lines(rest[..|rest| - 1]));
    }
  }

  /** A text whose only line break, or pair of them, stands at its end. */
  lemma LastLineOnly(t: string)
    requires t != "" && LineEnd(t) < |t| && AfterLine(t) == ""
    ensures NonBlank(Lines(t)) == NonBlank(Lines(t[..|t| - 1]))
  {
    var u, n := t[..|t| - 1], LineEnd(t);
    var line := t[..n];
    LinesUnfold(t);
    assert Lines(t) == [line];
    if |u| == n {
      assert u == line;
      LineEndAt(line, "");
      assert line + "" == line;
      NonBlankOne(line);
    } else {
      assert u == line + "\r" && "\r"[0] == '\r';
      LineEndAt(line, "\r");
      LinesUnfold(u);
      assert u[..n] == line;
    }
  }

  lemma FirstLineStays(t: string)
    requires t != "" && LineEnd(t) < |t| - 1
    ensures var u := t[..|t| - 1]; LineEnd(u) == LineEnd(t) && u[..LineEnd(u)] == t[..LineEnd(t)]
  {
    var u, n := t[..|t| - 1], LineEnd(t);
    assert u == t[..n] + u[n..] && u[n..][0] == t[n];
    LineEndAt(t[..n], u[n..]);
    assert u[..n] == t[..n];
  }

  /** Cutting the last character off leaves the first line alone when more than its break follows. */
  lemma ShorterTail(t: string)
    requires t != "" && AfterLine(t) != ""
    ensures var u := t[..|t| - 1];
            && u != "" && LineEnd(u) == LineEnd(t) < |u| && u[..LineEnd(u)] == t[..LineEnd(t)]
            && AfterLine(u) == AfterLine(t)[..|AfterLine(t)| - 1]
            && AfterLine(t)[|AfterLine(t)| - 1] == t[|t| - 1]
  {
    var u, n := t[..|t| - 1], LineEnd(t);
    FirstLineStays(t);
    assert u[n] == t[n];
    if n + 1 < |u| {
      assert u[n + 1] == t[n + 1];
    }
  }

  lemma {:induction false} LinesOfStripLeft(t: string)
    ensures NonBlank(Lines(StripLeft(t))) == NonBlank(Lines(t))
  {
    if t != "" && IsSpace(t[0]) {
      SpaceBefore(t);
      LinesOfStripLeft(t[1..]);
    }
  }

  lemma {:induction false} LinesOfStripRight(t: string)
    ensures NonBlank(Lines(StripRight(t))) == NonBlank(Lines(t))
  {
    if t != "" && IsSpace(t[|t| - 1]) {
      SpaceAfter(t);
      LinesOfStripRight(t[..|t| - 1]);
    }
  }

  lemma LinesOfStrip(t: string)
    ensures NonBlank(Lines(Strip(t))) == NonBlank(Lines(t))
  {
    LinesOfStripLeft(t);
    LinesOfStripRight(StripLeft(t));
  }

  predicate OneLiners(lines: seq<string>) {
    forall i :: 0 <= i < |lines| ==> NoLineBreak(lines[i])
  }

  /** Joining lines and cutting the text at its line breaks gives back the lines that say something. */
  lemma {:induction false} LinesOfJoin(lines: seq<string>)
    requires OneLiners(lines)
    ensures NonBlank(Lines(Join(lines))) == NonBlank(lines)
  {
    if |lines| == 1 {
      LinesOfLine(lines[0], "");
      NonBlankOne(lines[0]);
      assert lines == [lines[0]];
    } else if lines != [] {
      var first, rest := lines[0], lines[1..];
      assert lines == [first] + rest;
      JoinConcat([first], rest);
      LinesOfLine(first, Join(rest));
      LinesOfJoin(rest);
      NonBlankCons(first, Lines(Join(rest)));
      NonBlankCons(first, rest);
    }
  }

  lemma {:induction false} NonBlankOneLiners(lines: seq<string>)
    requires OneLiners(lines)
    ensures OneLiners(NonBlank(lines)) && NonBlank(NonBlank(lines)) == NonBlank(lines)
  {
    if lines != [] {
      var init, last := lines[..|lines| - 1], lines[|lines| - 1];
      NonBlankOneLiners(init);
      if Strip(last) != "" {
        StripIsPart(last);
        StripShape(last);
        StripOfStripped(Strip(last));
        NonBlankConcat(NonBlank(init), [Strip(last)]);
        NonBlankOne(Strip(last));
      }
    }
  }

  lemma StripIsPart(line: string)
    requires NoLineBreak(line)
    ensures NoLineBreak(Strip(line))
  {
    StripLeftShape(line);
    StripRightShape(StripLeft(line));
    var cut := |line| - |StripLeft(line)|;
    assert forall i :: 0 <= i < |StripLeft(line)| ==> StripLeft(line)[i] == line[cut + i];
    assert forall i :: 0 <= i < |Strip(line)| ==> Strip(line)[i] == StripLeft(line)[i];
  }

  /** Main result: from the parts of any text, long or short, exactly its lines that say something come
      back, in order. */
  lemma SplitLosesNothing(text: string, maxChars: nat, overlap: nat)
    ensures NonBlank(Lines(Recover(Split(text, maxChars, overlap), overlap))) == NonBlank(Lines(text))
  {
    if |text| > maxChars {
      LongSplitLosesNothing(text, maxChars, overlap);
      NonBlankOneLiners(Lines(text));
      LinesOfJoin(NonBlank(Lines(text)));
    } else {
      LinesOfStrip(text);
      var parts := Split(text, maxChars, overlap);
      if parts != [] {
        assert parts[..0] == [] && Recover(parts, overlap) == parts[0];
      }
    }
  }

  // ----- the parts are short

  function Longest(lines: seq<string>): nat {
    if lines == [] then 0 else Max(Longest(lines[..|lines| - 1]), |lines[|lines| - 1]|)
  }

  predicate AllWithin(parts: seq<string>, bound: nat) {
    forall k :: 0 <= k < |parts| ==> |parts[k]| <= bound
  }

  lemma RunNeverEmpty(lines: seq<string>, maxChars: nat, overlap: nat)
    requires lines != []
    ensures Run(lines, maxChars, overlap).current != []
  {
  }

  lemma StepIsShort(p: Progress, line: string, maxChars: nat, overlap: nat, bound: nat)
    requires |Join(p.current)| <= bound && AllWithin(p.parts, bound)
    requires maxChars <= bound && overlap + 1 + |line| <= bound
    ensures var q := Step(p, line, maxChars, overlap);
            |Join(q.current)| <= bound && AllWithin(q.parts, bound)
  {
    StripShape(Join(p.current));
    JoinSnoc(p.current, line);
    if Overflows(p, line, maxChars) {
      var tail := LastN(Strip(Join(p.current)), overlap);
      JoinSnoc([tail], line);
      assert [tail] + [line] == [tail, line];
    }
  }

  lemma {:induction false} RunIsShort(lines: seq<string>, maxChars: nat, overlap: nat, bound: nat)
    requires maxChars <= bound && overlap + 1 + Longest(lines) <= bound
    ensures var p := Run(lines, maxChars, overlap); |Join(p.current)| <= bound && AllWithin(p.parts, bound)
  {
    if lines != [] {
      var init := lines[..|lines| - 1];
      RunIsShort(init, maxChars, overlap, bound);
      StepIsShort(Run(init, maxChars, overlap), lines[|lines| - 1], maxChars, overlap, bound);
    }
  }

  lemma FinishIsShort(p: Progress, bound: nat)
    requires |Join(p.current)| <= bound && AllWithin(p.parts, bound)
    ensures AllWithin(Finish(p), bound)
  {
    StripShape(Join(p.current));
  }

  /** No part is longer than the limit, unless a single line with the repeated text is. */
  lemma PartsAreShort(text: string, maxChars: nat, overlap: nat)
    ensures AllWithin(Split(text, maxChars, overlap), Max(maxChars, overlap + 1 + Longest(NonBlank(Lines(text)))))
  {
    var lines := NonBlank(Lines(text));
    var bound := Max(maxChars, overlap + 1 + Longest(lines));
    if |text| <= maxChars {
      StripShape(text);
    } else {
      RunIsShort(lines, maxChars, overlap, bound);
      FinishIsShort(Run(lines, maxChars, overlap), bound);
    }
  }

  // ----- the parts are as long as they can be

  /** The unfinished part after the given ones, with its own new lines, has no room for one more line. */
  predicate Full(parts: seq<string>, own: seq<string>, line: string, maxChars: nat, overlap: nat) {
    |Join(CurrentLines(parts, own, overlap))| + 1 + |line| > maxChars
  }

  predicate FillsUp(parts: seq<string>, own: seq<string>, maxChars: nat, overlap: nat) {
    forall n :: 1 <= n < |own| ==> !Full(parts, own[..n], own[n], maxChars, overlap)
  }

  /** The k-th part takes its lines while they fit, and gives the next line away only when it does not. */
  predicate GreedyAt(parts: seq<string>, groups: seq<seq<string>>, k: nat, maxChars: nat, overlap: nat)
    requires k < |groups| && k <= |parts|
  {
    && groups[k] != [] && FillsUp(parts[..k], groups[k], maxChars, overlap)
    && (k + 1 < |groups| ==>
          groups[k + 1] != [] && Full(parts[..k], groups[k], groups[k + 1][0], maxChars, overlap))
  }

  predicate Greedy(parts: seq<string>, groups: seq<seq<string>>, maxChars: nat, overlap: nat) {
    |groups| <= |parts| + 1 && forall k: nat :: k < |groups| ==> GreedyAt(parts, groups, k, maxChars, overlap)
  }

  lemma FillsUpSnoc(parts: seq<string>, own: seq<string>, line: string, maxChars: nat, overlap: nat)
    requires own != [] && FillsUp(parts, own, maxChars, overlap) && !Full(parts, own, line, maxChars, overlap)
    ensures FillsUp(parts, own + [line], maxChars, overlap)
  {
    var more := own + [line];
    forall n | 1 <= n < |more| ensures !Full(parts, more[..n], more[n], maxChars, overlap) {
      assert more[..n] == own[..n];
      assert own[..|own|] == own;
    }
  }

  lemma GreedyStart(line: string, maxChars: nat, overlap: nat)
    ensures Greedy([], [[line]], maxChars, overlap)
  {
  }

  lemma GreedyAfterCut(
    parts: seq<string>, part: string, groups: seq<seq<string>>, line: string, maxChars: nat, overlap: nat)
    requires groups != [] && |groups| == |parts| + 1 && Greedy(parts, groups, maxChars, overlap)
    requires Full(parts, groups[|parts|], line, maxChars, overlap)
    ensures Greedy(parts + [part], groups + [[line]], maxChars, overlap)
  {
    var parts', groups' := parts + [part], groups + [[line]];
    forall k: nat | k < |groups'| ensures GreedyAt(parts', groups', k, maxChars, overlap) {
      if k < |groups| {
        assert GreedyAt(parts, groups, k, maxChars, overlap);
        assert parts'[..k] == parts[..k];
        assert parts[..|parts|] == parts;
      }
    }
  }

  lemma GreedyEarlier(
    parts: seq<string>, done: seq<seq<string>>, own: seq<string>, line: string, k: nat, maxChars: nat, overlap: nat)
    requires k < |done| == |parts| && own != [] && GreedyAt(parts, done + [own], k, maxChars, overlap)
    ensures GreedyAt(parts, done + [own + [line]], k, maxChars, overlap)
  {
    var before, after := done + [own], done + [own + [line]];
    assert before[k] == after[k];
    if k + 1 < |done| {
      assert before[k + 1] == after[k + 1];
    } else {
      assert before[k + 1] == own && after[k + 1] == own + [line] && (own + [line])[0] == own[0];
    }
  }

  lemma GreedyLast(
    parts: seq<string>, done: seq<seq<string>>, own: seq<string>, line: string, maxChars: nat, overlap: nat)
    requires |done| == |parts| && GreedyAt(parts, done + [own], |done|, maxChars, overlap)
    requires !Full(parts, own, line, maxChars, overlap)
    ensures own != [] && GreedyAt(parts, done + [own + [line]], |done|, maxChars, overlap)
  {
    assert parts[..|done|] == parts && (done + [own])[|done|] == own;
    FillsUpSnoc(parts, own, line, maxChars, overlap);
    assert (done + [own + [line]])[|done|] == own + [line];
  }

  lemma GreedyAfterLine(
    parts: seq<string>, done: seq<seq<string>>, own: seq<string>, line: string, maxChars: nat, overlap: nat)
    requires |done| == |parts| && Greedy(parts, done + [own], maxChars, overlap)
    requires !Full(parts, own, line, maxChars, overlap)
    ensures Greedy(parts, done + [own + [line]], maxChars, overlap)
  {
    assert GreedyAt(parts, done + [own], |done|, maxChars, overlap);
    GreedyLast(parts, done, own, line, maxChars, overlap);
    forall k: nat | k < |done| + 1 ensures GreedyAt(parts, done + [own + [line]], k, maxChars, overlap) {
      if k < |done| {
        assert GreedyAt(parts, done + [own], k, maxChars, overlap);
        GreedyEarlier(parts, done, own, line, k, maxChars, overlap);
      }
    }
  }

  lemma {:induction false} RunIsGreedy(lines: seq<string>, maxChars: nat, overlap: nat)
    requires lines != [] && AllGood(lines)
    ensures |Groups(lines, maxChars, overlap)| == |Run(lines, maxChars, overlap).parts| + 1
    ensures Greedy(Run(lines, maxChars, overlap).parts, Groups(lines, maxChars, overlap), maxChars, overlap)
  {
    var init, line := lines[..|lines| - 1], lines[|lines| - 1];
    if init == [] {
      GreedyStart(line, maxChars, overlap);
    } else {
      RunIsGreedy(init, maxChars, overlap);
      RunKeepsShape(init, maxChars, overlap);
      var p, before := Run(init, maxChars, overlap), Groups(init, maxChars, overlap);
      var done, own := before[..|before| - 1], before[|before| - 1];
      assert before == done + [own];
      if Overflows(p, line, maxChars) {
        GreedyAfterCut(p.parts, Strip(Join(p.current)), before, line, maxChars, overlap);
      } else {
        GreedyAfterLine(p.parts, done, own, line, maxChars, overlap);
      }
    }
  }

  lemma GreedyIgnoresLastPart(
    parts: seq<string>, part: string, groups: seq<seq<string>>, maxChars: nat, overlap: nat)
    requires |groups| == |parts| + 1 && Greedy(parts, groups, maxChars, overlap)
    ensures Greedy(parts + [part], groups, maxChars, overlap)
  {
    forall k: nat | k < |groups| ensures GreedyAt(parts + [part], groups, k, maxChars, overlap) {
      assert GreedyAt(parts, groups, k, maxChars, overlap) && (parts + [part])[..k] == parts[..k];
    }
  }

  /** Main result: a text within the limit stays in one piece, and every part of a longer one ends only where
      its next line, with what the part repeats, would exceed the limit. */
  lemma SplitsOnlyWhenFull(text: string, maxChars: nat, overlap: nat)
    ensures |text| <= maxChars ==>
              if Blank(text) then Split(text, maxChars, overlap) == []
              else Split(text, maxChars, overlap) == [Strip(text)]
    ensures |text| > maxChars ==>
              var parts, groups := Split(text, maxChars, overlap), Groups(NonBlank(Lines(text)), maxChars, overlap);
              |parts| == |groups| && Greedy(parts, groups, maxChars, overlap)
  {
    var lines := NonBlank(Lines(text));
    StripShape(text);
    NonBlankIsGood(Lines(text));
    if lines != [] {
      var p := Run(lines, maxChars, overlap);
      RunIsGreedy(lines, maxChars, overlap);
      RunNeverEmpty(lines, maxChars, overlap);
      GreedyIgnoresLastPart(p.parts, Strip(Join(p.current)), Groups(lines, maxChars, overlap), maxChars, overlap);
    }
  }
}
