/** What the sections and chunks of a document say about it, read off its lines: which headings stand above
    a line, which pages a section spans, and what each chunk carries. */
module Outline {
  import opened Common
  import opened Text
  import opened Chunking
  import opened Documents

  // ----- pieces laid end to end

  function Flat<T>(blocks: seq<seq<T>>): seq<T> {
    if blocks == [] then [] else Flat(blocks[..|blocks| - 1]) + blocks[|blocks| - 1]
  }

  /** Where the k-th block begins. */
  function Start<T>(blocks: seq<seq<T>>, k: nat): nat
    requires k <= |blocks|
  {
    if k == 0 then 0 else Start(blocks, k - 1) + |blocks[k - 1]|
  }

  lemma {:induction false} StartInPrefix<T>(blocks: seq<seq<T>>, n: nat, k: nat)
    requires k <= n <= |blocks|
    ensures Start(blocks[..n], k) == Start(blocks, k)
  {
    if k > 0 {
      StartInPrefix(blocks, n, k - 1);
    }
  }

  lemma {:induction false} FlatLength<T>(blocks: seq<seq<T>>)
    ensures |Flat(blocks)| == Start(blocks, |blocks|)
  {
    if blocks != [] {
      FlatLength(blocks[..|blocks| - 1]);
      StartInPrefix(blocks, |blocks| - 1, |blocks| - 1);
    }
  }

  lemma {:induction false} FlatAt<T>(blocks: seq<seq<T>>, k: nat, i: nat)
    requires k < |blocks| && i < |blocks[k]|
    ensures Start(blocks, k) + i < |Flat(blocks)| && Flat(blocks)[Start(blocks, k) + i] == blocks[k][i]
  {
    var n := |blocks| - 1;
    StartInPrefix(blocks, n, k);
    if k < n {
      FlatAt(blocks[..n], k, i);
    } else {
      FlatLength(blocks[..n]);
    }
  }

  // ----- the lines of the pages

  function LinesOf(pages: seq<Page>): seq<seq<Line>> {
    seq(|pages|, k requires 0 <= k < |pages| => pages[k].lines)
  }

  /** The walk meets every line of every page once, in order, with the number of its page. */
  lemma {:induction false} EveryLineIsMet(pages: seq<Page>, k: nat, i: nat)
    requires k < |pages| && i < |pages[k].lines|
    ensures var at := Start(LinesOf(pages), k) + i;
            at < |AllEntries(pages)| && AllEntries(pages)[at] == Entry(pages[k].number, pages[k].lines[i])
    ensures |AllEntries(pages)| == Start(LinesOf(pages), |pages|)
  {
    var n := |pages| - 1;
    assert LinesOf(pages)[..n] == LinesOf(pages[..n]);
    StartInPrefix(LinesOf(pages), n, k);
    StartInPrefix(LinesOf(pages), n, n);
    EntriesCount(pages[..n]);
    if k < n {
      EveryLineIsMet(pages[..n], k, i);
    }
  }

  lemma {:induction false} EntriesCount(pages: seq<Page>)
    ensures |AllEntries(pages)| == Start(LinesOf(pages), |pages|)
  {
    if pages != [] {
      var n := |pages| - 1;
      EntriesCount(pages[..n]);
      assert LinesOf(pages)[..n] == LinesOf(pages[..n]);
      StartInPrefix(LinesOf(pages), n, n);
    }
  }

  // ----- headings

  /** The last heading. */
  function LastHeading(entries: seq<Entry>): Option<Heading> {
    if entries == [] then None
    else
      var e := entries[|entries| - 1];
      if e.line.heading.Some? then e.line.heading else LastHeading(entries[..|entries| - 1])
  }

  /** The caption of the last heading of a depth. */
  function LastAt(entries: seq<Entry>, depth: nat): Option<string> {
    if entries == [] then None
    else
      var e := entries[|entries| - 1];
      if e.line.heading.Some? && e.line.heading.value.depth == depth then Some(e.line.heading.value.caption)
      else LastAt(entries[..|entries| - 1], depth)
  }

  /** The deepest a heading may stand after the given lines without skipping a level. */
  function Deepest(entries: seq<Entry>): nat {
    match LastHeading(entries)
    case None => 0
    case Some(h) => h.depth + 1
  }

  predicate NoLevelSkipped(entries: seq<Entry>) {
    forall i :: 0 <= i < |entries| && entries[i].line.heading.Some? ==>
      entries[i].line.heading.value.depth <= Deepest(entries[..i])
  }

  /** The path of the next line has one heading for each depth up to that of the last heading, each the last
      of its depth. */
  predicate IsOutline(entries: seq<Entry>, path: seq<string>) {
    && |path| == Deepest(entries)
    && forall k: nat :: k < |path| ==> LastAt(entries, k) == Some(path[k])
  }

  predicate OutlineThroughout(entries: seq<Entry>) {
    forall n :: 0 <= n <= |entries| ==> IsOutline(entries[..n], Hierarchy(entries[..n]))
  }

  lemma OutlineStep(init: seq<Entry>, e: Entry)
    requires IsOutline(init, Hierarchy(init))
    ensures IsOutline(init + [e], Hierarchy(init + [e])) <==>
            (e.line.heading.Some? ==> e.line.heading.value.depth <= Deepest(init))
  {
    var entries := init + [e];
    assert entries[..|entries| - 1] == init;
    var h, h' := Hierarchy(init), Hierarchy(entries);
    if e.line.heading.Some? && e.line.heading.value.depth <= Deepest(init) {
      var depth := e.line.heading.value.depth;
      assert h' == h[..depth] + [e.line.heading.value.caption];
      forall k: nat | k < |h'| ensures LastAt(entries, k) == Some(h'[k]) {
        assert k < depth ==> LastAt(init, k) == Some(h[k]);
      }
    }
  }

  /** Main result: at every line the path is the outline, the last heading of each depth up to the present
      one, exactly when no heading skips a level. */
  lemma {:induction false} PathsAreOutlineIff(entries: seq<Entry>)
    ensures OutlineThroughout(entries) <==> NoLevelSkipped(entries)
  {
    if entries == [] {
      assert IsOutline(entries[..0], Hierarchy(entries[..0]));
    } else {
      var n := |entries| - 1;
      var init := entries[..n];
      PathsAreOutlineIff(init);
      assert forall k :: 0 <= k <= n ==> init[..k] == entries[..k];
      assert entries[..n + 1] == entries == init + [entries[n]];
      assert OutlineThroughout(entries) <==> OutlineThroughout(init) && IsOutline(entries, Hierarchy(entries));
      if OutlineThroughout(init) {
        assert init[..n] == init && IsOutline(init, Hierarchy(init));
        OutlineStep(init, entries[n]);
      }
      SkippedSnoc(entries);
    }
  }

  lemma SkippedSnoc(entries: seq<Entry>)
    requires entries != []
    ensures var n := |entries| - 1;
            NoLevelSkipped(entries) <==>
            && NoLevelSkipped(entries[..n])
            && (entries[n].line.heading.Some? ==>
                  entries[n].line.heading.value.depth <= Deepest(entries[..n]))
  {
    var n := |entries| - 1;
    assert forall i :: 0 <= i < n ==> entries[..n][i] == entries[i] && entries[..n][..i] == entries[..i];
  }

  // ----- pages

  /** The document cut before each heading. */
  function Stretches(entries: seq<Entry>): (r: seq<seq<Entry>>)
    ensures r != []
  {
    if entries == [] then [[]]
    else
      var before, e := Stretches(entries[..|entries| - 1]), entries[|entries| - 1];
      if e.line.heading.Some? then before + [[e]]
      else before[..|before| - 1] + [before[|before| - 1] + [e]]
  }

  /** The lines of a stretch without its heading. */
  function BodyLines(stretch: seq<Entry>): seq<string> {
    if stretch == [] then []
    else
      var e := stretch[|stretch| - 1];
      BodyLines(stretch[..|stretch| - 1]) + if e.line.heading.Some? then [] else [e.line.text]
  }

  /** A section holds the lines of its stretch and spans from the page of its heading, or from page one, to
      that of its last line. */
  predicate Covers(s: Section, stretch: seq<Entry>) {
    && s.lines == BodyLines(stretch)
    && s.pageStart == (if stretch != [] && stretch[0].line.heading.Some? then stretch[0].page else 1)
    && s.pageEnd == if stretch == [] then 1 else stretch[|stretch| - 1].page
  }

  /** The stretches in which something stands below the heading. */
  function Kept(stretches: seq<seq<Entry>>): seq<seq<Entry>> {
    if stretches == [] then []
    else
      var last := stretches[|stretches| - 1];
      Kept(stretches[..|stretches| - 1]) + if BodyLines(last) == [] then [] else [last]
  }

  predicate AllCover(sections: seq<Section>, stretches: seq<seq<Entry>>) {
    |sections| == |stretches| && forall k :: 0 <= k < |sections| ==> Covers(sections[k], stretches[k])
  }

  lemma CoversMore(s: Section, stretch: seq<Entry>, e: Entry)
    requires Covers(s, stretch) && e.line.heading.None?
    ensures Covers(s.(lines := s.lines + [e.line.text], pageEnd := e.page), stretch + [e])
  {
    var more := stretch + [e];
    assert more[..|more| - 1] == stretch;
  }

  lemma CoversNothingYet(path: seq<string>, e: Entry)
    requires e.line.heading.Some?
    ensures Covers(Section(path, e.page, e.page, []), [e])
  {
    assert [e][..0] == [];
  }

  lemma FlushCovers(c: Cursor, done: seq<seq<Entry>>, stretch: seq<Entry>)
    requires AllCover(c.done, Kept(done)) && Covers(c.current, stretch)
    ensures AllCover(Flush(c), Kept(done + [stretch]))
  {
    assert (done + [stretch])[..|done|] == done;
  }

  lemma {:induction false} WalkCovers(entries: seq<Entry>, title: string)
    ensures var c, all := Walk(entries, title), Stretches(entries);
            AllCover(c.done, Kept(all[..|all| - 1])) && Covers(c.current, all[|all| - 1])
  {
    if entries != [] {
      var init, e := entries[..|entries| - 1], entries[|entries| - 1];
      WalkCovers(init, title);
      var c, before, all := Walk(init, title), Stretches(init), Stretches(entries);
      var done, stretch := before[..|before| - 1], before[|before| - 1];
      assert before == done + [stretch];
      if e.line.heading.Some? {
        FlushCovers(c, done, stretch);
        CoversNothingYet(Above(c.hierarchy, e.line.heading.value), e);
        assert all[..|all| - 1] == before;
      } else {
        CoversMore(c.current, stretch, e);
        assert all[..|all| - 1] == done;
      }
    }
  }

  /** Main result: the sections are the stretches between headings that hold any line, in order, each with
      exactly its lines and from the page of its heading to that of its last line. */
  lemma SectionsAreStretches(entries: seq<Entry>, title: string)
    ensures AllCover(Sections(entries, title), Kept(Stretches(entries)))
  {
    WalkCovers(entries, title);
    var all := Stretches(entries);
    FlushCovers(Walk(entries, title), all[..|all| - 1], all[|all| - 1]);
    assert all == all[..|all| - 1] + [all[|all| - 1]];
  }

  /** The path under which the tables of a page are found when their wording gives none: that of the last page
      with its number. */
  lemma {:induction false} PagePathIsLast(pages: seq<Page>, title: string, i: nat)
    requires i < |pages| && forall j :: i < j < |pages| ==> pages[j].number != pages[i].number
    ensures pages[i].number in PagePaths(pages, title)
    ensures PagePaths(pages, title)[pages[i].number] == PathIn(Hierarchy(AllEntries(pages[..i + 1])), title)
  {
    if i == |pages| - 1 {
      assert pages[..i + 1] == pages;
    } else {
      var init := pages[..|pages| - 1];
      assert init[..i + 1] == pages[..i + 1];
      PagePathIsLast(init, title, i);
    }
  }

  // ----- chunks

  predicate Holds(content: string, marker: string) {
    exists i :: 0 <= i <= |content| - |marker| && content[i..][..|marker|] == marker
  }

  lemma HoldsIff(content: string, marker: string)
    ensures Contains(content, marker) <==> Holds(content, marker)
  {
    if Contains(content, marker) {
      var i :| 0 <= i <= |content| && marker <= content[i..];
      assert content[i..][..|marker|] == marker;
    }
    if Holds(content, marker) {
      var i :| 0 <= i <= |content| - |marker| && content[i..][..|marker|] == marker;
      assert marker <= content[i..];
    }
  }

  predicate SaysDoubtful(content: string) {
    || Holds(content, "原文疑点") || Holds(content, "原文完整性说明") || Holds(content, "原文数字口径")
    || Holds(content, "原文方法口径") || Holds(content, "原文如此") || Holds(content, "原文写")
    || Holds(content, "不自行补写") || Holds(content, "不擅自修正")
  }

  predicate SaysFormula(content: string) {
    Holds(content, "公式:") || Holds(content, "公式：") || Holds(content, "∑")
  }

  lemma DoubtfulIff(content: string)
    ensures Uncertain(content) <==> SaysDoubtful(content)
  {
    var m := UNCERTAINTY_MARKERS;
    assert |m| == 8;
    forall k | 0 <= k < |m| ensures Contains(content, m[k]) <==> Holds(content, m[k]) {
      HoldsIff(content, m[k]);
    }
    assert SaysDoubtful(content) <==> (
      || Holds(content, m[0]) || Holds(content, m[1]) || Holds(content, m[2]) || Holds(content, m[3])
      || Holds(content, m[4]) || Holds(content, m[5]) || Holds(content, m[6]) || Holds(content, m[7]));
  }

  lemma FormulaIff(content: string)
    ensures Contains(content, "公式:") || Contains(content, "公式：") || Contains(content, "∑") <==>
            SaysFormula(content)
  {
    HoldsIff(content, "公式:");
    HoldsIff(content, "公式：");
    HoldsIff(content, "∑");
  }

  /** The body names the headings of its section, unless all are empty, and then gives the part. */
  predicate Carries(b: Body, s: Section, part: string) {
    && b.path == s.path && b.pageStart == s.pageStart && b.pageEnd == s.pageEnd
    && b.content == (if Trail(s.path) == "" then part else "章节：" + Trail(s.path) + "\n" + part)
    && b.uncertain == SaysDoubtful(b.content)
    && (b.kind == Formula <==> SaysFormula(b.content))
    && (b.kind == Warning <==> !SaysFormula(b.content) && SaysDoubtful(b.content))
    && b.kind != Tabular
  }

  lemma TextBodyCarries(s: Section, part: string)
    ensures Carries(TextBody(s, part), s, part)
  {
    var content := Prefix(s.path) + part;
    DoubtfulIff(content);
    FormulaIff(content);
  }

  function Cuts(sections: seq<Section>, maxChars: nat, overlap: nat): seq<seq<string>> {
    seq(|sections|, k requires 0 <= k < |sections| => SectionParts(sections[k], maxChars, overlap))
  }

  function Blocks(sections: seq<Section>, cuts: seq<seq<string>>): seq<seq<Body>>
    requires |sections| == |cuts|
  {
    seq(|sections|, k requires 0 <= k < |sections| => SectionBodies(sections[k], cuts[k]))
  }

  lemma {:induction false} BodiesAreBlocks(sections: seq<Section>, maxChars: nat, overlap: nat)
    ensures TextBodies(sections, maxChars, overlap) == Flat(Blocks(sections, Cuts(sections, maxChars, overlap)))
  {
    if sections != [] {
      var n := |sections| - 1;
      BodiesAreBlocks(sections[..n], maxChars, overlap);
      var blocks := Blocks(sections, Cuts(sections, maxChars, overlap));
      assert blocks[..n] == Blocks(sections[..n], Cuts(sections[..n], maxChars, overlap));
    }
  }

  lemma {:induction false} BlocksStartWithCuts(sections: seq<Section>, cuts: seq<seq<string>>, k: nat)
    requires k <= |sections| == |cuts|
    ensures Start(Blocks(sections, cuts), k) == Start(cuts, k)
  {
    if k > 0 {
      BlocksStartWithCuts(sections, cuts, k - 1);
    }
  }

  /** The i-th part of the k-th section has its chunk where the sections before it leave off. */
  predicate CarriesAt(bodies: seq<Body>, sections: seq<Section>, cuts: seq<seq<string>>, k: nat, i: nat)
    requires k < |cuts| == |sections| && i < |cuts[k]|
  {
    Start(cuts, k) + i < |bodies| && Carries(bodies[Start(cuts, k) + i], sections[k], cuts[k][i])
  }

  ghost predicate CarryAll(bodies: seq<Body>, sections: seq<Section>, cuts: seq<seq<string>>) {
    && |cuts| == |sections| && |bodies| == Start(cuts, |cuts|)
    && forall k: nat, i: nat :: k < |cuts| && i < |cuts[k]| ==> CarriesAt(bodies, sections, cuts, k, i)
  }

  lemma BlockCarries(sections: seq<Section>, cuts: seq<seq<string>>, k: nat, i: nat)
    requires |sections| == |cuts| && k < |cuts| && i < |cuts[k]|
    ensures CarriesAt(Flat(Blocks(sections, cuts)), sections, cuts, k, i)
  {
    FlatAt(Blocks(sections, cuts), k, i);
    BlocksStartWithCuts(sections, cuts, k);
    TextBodyCarries(sections[k], cuts[k][i]);
  }

  lemma BlocksCarryParts(sections: seq<Section>, cuts: seq<seq<string>>)
    requires |sections| == |cuts|
    ensures CarryAll(Flat(Blocks(sections, cuts)), sections, cuts)
  {
    FlatLength(Blocks(sections, cuts));
    BlocksStartWithCuts(sections, cuts, |sections|);
    forall k: nat, i: nat | k < |cuts| && i < |cuts[k]|
      ensures CarriesAt(Flat(Blocks(sections, cuts)), sections, cuts, k, i)
    {
      BlockCarries(sections, cuts, k, i);
    }
  }

  /** Main result: the chunks of the sections come section by section and part by part, each with the headings
      and pages of its section; a doubtful or formula wording anywhere in it decides its kind. */
  lemma ChunksCarryParts(sections: seq<Section>, maxChars: nat, overlap: nat)
    ensures CarryAll(TextBodies(sections, maxChars, overlap), sections, Cuts(sections, maxChars, overlap))
  {
    BodiesAreBlocks(sections, maxChars, overlap);
    BlocksCarryParts(sections, Cuts(sections, maxChars, overlap));
  }

  /** A table chunk stands on its page, under its own path or else that of the page, and ends with the table. */
  predicate ShowsTable(b: Body, page: Page, j: nat, pagePath: seq<string>)
    requires j < |page.tables|
  {
    var text := page.tables[j].markdown;
    && b.kind == Tabular && b.pageStart == page.number == b.pageEnd
    && b.path == page.tables[j].ruled.GetOr(pagePath)
    && b.uncertain == SaysDoubtful(b.content)
    && |text| <= |b.content| && b.content[|b.content| - |text|..] == text
  }

  lemma TableIsShown(page: Page, j: nat, paths: map<int, seq<string>>, title: string)
    requires j < |page.tables| && page.number in paths
    ensures ShowsTable(TableBody(page, j, paths, title), page, j, paths[page.number])
  {
    DoubtfulIff(TableBody(page, j, paths, title).content);
  }

  function Tables(pages: seq<Page>, paths: map<int, seq<string>>, title: string): seq<seq<Body>> {
    seq(|pages|, k requires 0 <= k < |pages| => PageBodies(pages[k], paths, title))
  }

  lemma {:induction false} TablesAreBlocks(pages: seq<Page>, paths: map<int, seq<string>>, title: string)
    ensures TableBodies(pages, paths, title) == Flat(Tables(pages, paths, title))
  {
    if pages != [] {
      var n := |pages| - 1;
      TablesAreBlocks(pages[..n], paths, title);
      assert Tables(pages, paths, title)[..n] == Tables(pages[..n], paths, title);
    }
  }

  /** Behind the chunks of the sections come those of the tables, page by page and in the order of each page. */
  lemma TablesComeInOrder(pages: seq<Page>, paths: map<int, seq<string>>, title: string, k: nat, j: nat)
    requires k < |pages| && j < |pages[k].tables| && pages[k].number in paths
    ensures var bodies, at := TableBodies(pages, paths, title), Start(Tables(pages, paths, title), k) + j;
            at < |bodies| && ShowsTable(bodies[at], pages[k], j, paths[pages[k].number])
  {
    TablesAreBlocks(pages, paths, title);
    FlatAt(Tables(pages, paths, title), k, j);
    TableIsShown(pages[k], j, paths, title);
  }

  /** The chunks of a document are those of its sections, then those of its tables. */
  lemma TablesStandLast(pages: seq<Page>, title: string, maxChars: nat, overlap: nat, i: nat)
    requires i < |Numbered(AllBodies(pages, title, maxChars, overlap))|
    ensures var body := Numbered(AllBodies(pages, title, maxChars, overlap))[i].body;
            var texts := TextBodies(Sections(AllEntries(pages), title), maxChars, overlap);
            var tables := TableBodies(pages, PagePaths(pages, title), title);
            && |Numbered(AllBodies(pages, title, maxChars, overlap))| == |texts| + |tables|
            && (i < |texts| ==> body == texts[i]) && (i >= |texts| ==> body == tables[i - |texts|])
            && (body.kind == Tabular <==> i >= |texts|)
  {
    var sections := Sections(AllEntries(pages), title);
    var texts := TextBodies(sections, maxChars, overlap);
    TableBodiesAreTables(pages, PagePaths(pages, title), title);
    TextsAreNoTables(sections, maxChars, overlap);
  }

  lemma {:induction false} TextsAreNoTables(sections: seq<Section>, maxChars: nat, overlap: nat)
    ensures forall b :: b in TextBodies(sections, maxChars, overlap) ==> b.kind != Tabular
  {
    if sections != [] {
      TextsAreNoTables(sections[..|sections| - 1], maxChars, overlap);
    }
  }
}
