/** Walking the pages of a document into sections and numbering the chunks cut from them. */
module Documents {
  import opened Common
  import opened Text
  import opened Chunking

  /** A numbered heading; its depth is the number of dots in its number. */
  datatype Heading = Heading(depth: nat, caption: string)

  /** A line of a page, with what the heading test made of it. */
  datatype Line = Line(text: string, heading: Option<Heading>)

  /** A table, with the section path its wording assigns to it, if any. */
  datatype Table = Table(markdown: string, ruled: Option<seq<string>>)

  datatype Page = Page(number: int, lines: seq<Line>, tables: seq<Table>)

  datatype Section = Section(path: seq<string>, pageStart: int, pageEnd: int, lines: seq<string>)

  datatype ContentType = Formula | Warning | Narrative | Tabular

  /** A chunk before it is numbered; `uncertain` is the warning that the source itself is doubtful. */
  datatype Body = Body(
    path: seq<string>, pageStart: int, pageEnd: int, content: string, kind: ContentType, uncertain: bool)

  datatype Chunk = Chunk(ordinal: nat, body: Body)

  datatype Outcome = Chunks(chunks: seq<Chunk>) | ValueError

  /** A line together with the number of its page. */
  datatype Entry = Entry(page: int, line: Line)

  datatype Cursor = Cursor(done: seq<Section>, current: Section, hierarchy: seq<string>)

  // ----- specification of the walk

  function Entries(page: Page): seq<Entry> {
    seq(|page.lines|, i requires 0 <= i < |page.lines| => Entry(page.number, page.lines[i]))
  }

  function AllEntries(pages: seq<Page>): seq<Entry> {
    if pages == [] then [] else AllEntries(pages[..|pages| - 1]) + Entries(pages[|pages| - 1])
  }

  /** The headings above the next line, outermost first. */
  function Above(hierarchy: seq<string>, h: Heading): seq<string> {
    FirstN(hierarchy, h.depth) + [h.caption]
  }

  function Hierarchy(entries: seq<Entry>): seq<string> {
    if entries == [] then []
    else
      var before, e := Hierarchy(entries[..|entries| - 1]), entries[|entries| - 1];
      if e.line.heading.Some? then Above(before, e.line.heading.value) else before
  }

  /** The path of a line: the headings above it, or the title when there are none yet. */
  function PathIn(hierarchy: seq<string>, title: string): seq<string> {
    if hierarchy == [] then [title] else hierarchy
  }

  function Flush(c: Cursor): seq<Section> {
    if c.current.lines != [] then c.done + [c.current] else c.done
  }

  function Feed(c: Cursor, e: Entry): Cursor {
    if e.line.heading.Some? then
      var hierarchy := Above(c.hierarchy, e.line.heading.value);
      Cursor(Flush(c), Section(hierarchy, e.page, e.page, []), hierarchy)
    else
      c.(current := c.current.(lines := c.current.lines + [e.line.text], pageEnd := e.page))
  }

  function Walk(entries: seq<Entry>, title: string): Cursor {
    if entries == [] then Cursor([], Section([title], 1, 1, []), [])
    else Feed(Walk(entries[..|entries| - 1], title), entries[|entries| - 1])
  }

  function Sections(entries: seq<Entry>, title: string): seq<Section> {
    Flush(Walk(entries, title))
  }

  /** Where each page leaves off. */
  function PagePaths(pages: seq<Page>, title: string): map<int, seq<string>> {
    if pages == [] then map[]
    else
      var path := PathIn(Hierarchy(AllEntries(pages)), title);
      PagePaths(pages[..|pages| - 1], title)[pages[|pages| - 1].number := path]
  }

  // ----- specification of the chunks

  const UNCERTAINTY_MARKERS: seq<string> := [
    "原文疑点", "原文完整性说明", "原文数字口径", "原文方法口径", "原文如此", "原文写", "不自行补写", "不擅自修正"]

  predicate Contains(s: string, marker: string) {
    exists i :: 0 <= i <= |s| && marker <= s[i..]
  }

  predicate Uncertain(content: string) {
    exists k :: 0 <= k < |UNCERTAINTY_MARKERS| && Contains(content, UNCERTAINTY_MARKERS[k])
  }

  function KindOf(content: string): ContentType {
    if Contains(content, "公式:") || Contains(content, "公式：") || Contains(content, "∑") then Formula
    else if Uncertain(content) then Warning
    else Narrative
  }

  function Trail(path: seq<string>): string {
    if path == [] then "" else if |path| == 1 then path[0] else Trail(path[..|path| - 1]) + " > " + path[|path| - 1]
  }

  /** What stands before a part of a section: nothing when the headings are empty. */
  function Prefix(path: seq<string>): string {
    if Trail(path) == "" then "" else "章节：" + Trail(path) + "\n"
  }

  function TextBody(s: Section, part: string): Body {
    var content := Prefix(s.path) + part;
    Body(s.path, s.pageStart, s.pageEnd, content, KindOf(content), Uncertain(content))
  }

  function SectionBodies(s: Section, parts: seq<string>): seq<Body> {
    seq(|parts|, i requires 0 <= i < |parts| => TextBody(s, parts[i]))
  }

  function Digits(n: nat): string {
    if n < 10 then ["0123456789"[n]] else Digits(n / 10) + ["0123456789"[n % 10]]
  }

  function Decimal(n: int): string {
    if n < 0 then "-" + Digits(-n) else Digits(n)
  }

  function TextBodies(sections: seq<Section>, maxChars: nat, overlap: nat): seq<Body> {
    if sections == [] then []
    else
      var s := sections[|sections| - 1];
      TextBodies(sections[..|sections| - 1], maxChars, overlap) +
      SectionBodies(s, SectionParts(s, maxChars, overlap))
  }

  function TableBody(page: Page, index: nat, paths: map<int, seq<string>>, title: string): Body
    requires index < |page.tables|
  {
    var fallback := if page.number in paths then paths[page.number] else [title];
    var path := page.tables[index].ruled.GetOr(fallback);
    var content :=
      "章节：" + Trail(path) + "\n表格（第" + Decimal(page.number) + "页，第" + Decimal(index + 1) + "个）：\n" +
      page.tables[index].markdown;
    Body(path, page.number, page.number, content, Tabular, Uncertain(content))
  }

  function PageBodies(page: Page, paths: map<int, seq<string>>, title: string): seq<Body> {
    seq(|page.tables|, i requires 0 <= i < |page.tables| => TableBody(page, i, paths, title))
  }

  function TableBodies(pages: seq<Page>, paths: map<int, seq<string>>, title: string): seq<Body> {
    if pages == [] then []
    else TableBodies(pages[..|pages| - 1], paths, title) + PageBodies(pages[|pages| - 1], paths, title)
  }

  function AllBodies(pages: seq<Page>, title: string, maxChars: nat, overlap: nat): seq<Body> {
    TextBodies(Sections(AllEntries(pages), title), maxChars, overlap) +
    TableBodies(pages, PagePaths(pages, title), title)
  }

  function Numbered(bodies: seq<Body>): seq<Chunk> {
    seq(|bodies|, i requires 0 <= i < |bodies| => Chunk(i, bodies[i]))
  }

  // ----- the procedure

  method WalkPage(page: Page, done: seq<Section>, last: Section, above: seq<string>, ghost before: seq<Entry>,
      ghost title: string)
    returns (sections: seq<Section>, current: Section, hierarchy: seq<string>)
    requires Cursor(done, last, above) == Walk(before, title) && above == Hierarchy(before)
    ensures Cursor(sections, current, hierarchy) == Walk(before + Entries(page), title)
    ensures hierarchy == Hierarchy(before + Entries(page))
  {
    sections, current, hierarchy := done, last, above;
    ghost var entries := Entries(page);
    assert before + entries[..0] == before;
    for j := 0 to |page.lines|
      invariant Cursor(sections, current, hierarchy) == Walk(before + entries[..j], title)
      invariant hierarchy == Hierarchy(before + entries[..j])
    {
      WalkSnoc(before + entries[..j], entries[j], title);
      assert before + entries[..j + 1] == before + entries[..j] + [entries[j]];
      var line := page.lines[j];
      if line.heading.Some? {
        if current.lines != [] {
          sections := sections + [current];
        }
        hierarchy := Above(hierarchy, line.heading.value);
        current := Section(hierarchy, page.number, page.number, []);
        continue;
      }
      current := current.(lines := current.lines + [line.text], pageEnd := page.number);
    }
    assert entries[..|page.lines|] == entries;
  }

  method WalkPages(pages: seq<Page>, title: string) returns (sections: seq<Section>, paths: map<int, seq<string>>)
    ensures sections == Sections(AllEntries(pages), title)
    ensures paths == PagePaths(pages, title)
  {
    sections := [];
    paths := map[];
    var current := Section([title], 1, 1, []);
    var hierarchy: seq<string> := [];
    for i := 0 to |pages|
      invariant Cursor(sections, current, hierarchy) == Walk(AllEntries(pages[..i]), title)
      invariant hierarchy == Hierarchy(AllEntries(pages[..i]))
      invariant paths == PagePaths(pages[..i], title)
    {
      assert pages[..i + 1][..i] == pages[..i];
      sections, current, hierarchy := WalkPage(pages[i], sections, current, hierarchy, AllEntries(pages[..i]), title);
      paths := paths[pages[i].number := PathIn(hierarchy, title)];
    }
    assert pages[..|pages|] == pages;
    if current.lines != [] {
      sections := sections + [current];
    }
  }

  lemma WalkSnoc(entries: seq<Entry>, e: Entry, title: string)
    ensures Walk(entries + [e], title) == Feed(Walk(entries, title), e)
    ensures Hierarchy(entries + [e]) ==
            if e.line.heading.Some? then Above(Hierarchy(entries), e.line.heading.value) else Hierarchy(entries)
  {
    var more := entries + [e];
    assert more[..|more| - 1] == entries && more[|more| - 1] == e;
  }

  lemma NumberedSnoc(bodies: seq<Body>, b: Body)
    ensures Numbered(bodies + [b]) == Numbered(bodies) + [Chunk(|bodies|, b)]
  {
  }

  method AppendBodies(chunks: seq<Chunk>, ordinal: nat, more: seq<Body>, ghost before: seq<Body>)
    returns (chunks': seq<Chunk>, ordinal': nat)
    requires chunks == Numbered(before) && ordinal == |before|
    ensures chunks' == Numbered(before + more) && ordinal' == |before + more|
  {
    chunks', ordinal' := chunks, ordinal;
    assert before + more[..0] == before;
    for i := 0 to |more|
      invariant chunks' == Numbered(before + more[..i]) && ordinal' == |before| + i
    {
      NumberedSnoc(before + more[..i], more[i]);
      assert before + more[..i + 1] == before + more[..i] + [more[i]];
      chunks' := chunks' + [Chunk(ordinal', more[i])];
      ordinal' := ordinal' + 1;
    }
    assert more[..|more|] == more;
  }

  method ChunkDocument(pages: seq<Page>, title: string, maxChars: int, overlap: int) returns (r: Outcome)
    ensures r.ValueError? <==> maxChars < 200 || overlap < 0 || overlap >= maxChars
    ensures r.Chunks? ==> r.chunks == Numbered(AllBodies(pages, title, maxChars, overlap))
    ensures r.Chunks? && OneLiners(Texts(PlacedLines(AllEntries(pages), title))) ==>
              GivesBackLines(pages, title, maxChars, overlap, r.chunks)
  {
    if maxChars < 200 || overlap < 0 || overlap >= maxChars {
      return ValueError;
    }
    var sections, paths := WalkPages(pages, title);
    var chunks, ordinal := ChunkSections(sections, maxChars, overlap);
    chunks := ChunkTables(chunks, ordinal, pages, paths, title, TextBodies(sections, maxChars, overlap));
    if OneLiners(Texts(PlacedLines(AllEntries(pages), title))) {
      DocumentLosesNothing(pages, title, maxChars, overlap);
    }
    return Chunks(chunks);
  }

  method ChunkSections(sections: seq<Section>, maxChars: nat, overlap: nat) returns (chunks: seq<Chunk>, ordinal: nat)
    ensures chunks == Numbered(TextBodies(sections, maxChars, overlap))
    ensures ordinal == |TextBodies(sections, maxChars, overlap)|
  {
    chunks, ordinal := [], 0;
    for i := 0 to |sections|
      invariant chunks == Numbered(TextBodies(sections[..i], maxChars, overlap))
      invariant ordinal == |TextBodies(sections[..i], maxChars, overlap)|
    {
      assert sections[..i + 1][..i] == sections[..i];
      var parts := SplitContent(Strip(Join(sections[i].lines)), maxChars, overlap);
      chunks, ordinal := AppendBodies(
        chunks, ordinal, SectionBodies(sections[i], parts), TextBodies(sections[..i], maxChars, overlap));
    }
    assert sections[..|sections|] == sections;
  }

  method ChunkTables(chunks: seq<Chunk>, ordinal: nat, pages: seq<Page>, paths: map<int, seq<string>>, title: string,
                     ghost texts: seq<Body>)
    returns (all: seq<Chunk>)
    requires chunks == Numbered(texts) && ordinal == |texts|
    ensures all == Numbered(texts + TableBodies(pages, paths, title))
  {
    var next := ordinal;
    all := chunks;
    ghost var tables := [];
    assert texts + tables == texts;
    for i := 0 to |pages|
      invariant tables == TableBodies(pages[..i], paths, title)
      invariant all == Numbered(texts + tables) && next == |texts + tables|
    {
      assert pages[..i + 1][..i] == pages[..i];
      var bodies := PageBodies(pages[i], paths, title);
      all, next := AppendBodies(all, next, bodies, texts + tables);
      assert texts + tables + bodies == texts + (tables + bodies);
      tables := tables + bodies;
    }
    assert pages[..|pages|] == pages;
  }

  // ----- every line in exactly one section

  /** A line of text with the path of headings it belongs to. */
  datatype Placed = Placed(path: seq<string>, text: string)

  function PlacedLines(entries: seq<Entry>, title: string): seq<Placed> {
    if entries == [] then []
    else
      var init, e := entries[..|entries| - 1], entries[|entries| - 1];
      if e.line.heading.Some? then PlacedLines(init, title)
      else PlacedLines(init, title) + [Placed(PathIn(Hierarchy(init), title), e.line.text)]
  }

  function Lined(s: Section): seq<Placed> {
    seq(|s.lines|, i requires 0 <= i < |s.lines| => Placed(s.path, s.lines[i]))
  }

  function Expand(sections: seq<Section>): seq<Placed> {
    if sections == [] then [] else Expand(sections[..|sections| - 1]) + Lined(sections[|sections| - 1])
  }

  lemma ExpandFlush(c: Cursor)
    ensures Expand(Flush(c)) == Expand(c.done) + Lined(c.current)
  {
    var more := c.done + [c.current];
    assert more[..|more| - 1] == c.done && more[|more| - 1] == c.current;
  }

  lemma {:induction false} WalkPlacesLines(entries: seq<Entry>, title: string)
    ensures var c := Walk(entries, title);
            && c.hierarchy == Hierarchy(entries)
            && c.current.path == PathIn(c.hierarchy, title)
            && Expand(c.done) + Lined(c.current) == PlacedLines(entries, title)
  {
    if entries != [] {
      var init, e := entries[..|entries| - 1], entries[|entries| - 1];
      WalkPlacesLines(init, title);
      var c := Walk(init, title);
      if e.line.heading.Some? {
        ExpandFlush(c);
        assert Expand(Flush(c)) + [] == Expand(Flush(c));
      } else {
        var section := Feed(c, e).current;
        assert Lined(section) == Lined(c.current) + [Placed(c.current.path, e.line.text)];
      }
    }
  }

  /** Reading the sections in order gives every line that is not a heading once, in order, each
      under the headings that stand above it in the document. */
  lemma EveryLineInOneSection(entries: seq<Entry>, title: string)
    ensures Expand(Sections(entries, title)) == PlacedLines(entries, title)
  {
    WalkPlacesLines(entries, title);
    ExpandFlush(Walk(entries, title));
  }

  // ----- nothing is lost from the pages to the chunks

  /** The lines that can be read back from the chunks of each section. */
  function RecoveredLines(sections: seq<Section>, maxChars: nat, overlap: nat): seq<string> {
    if sections == [] then []
    else
      RecoveredLines(sections[..|sections| - 1], maxChars, overlap) +
      NonBlank(Lines(Recover(SectionParts(sections[|sections| - 1], maxChars, overlap), overlap)))
  }

  /** The texts of the chunks of one section, in order. */
  function SectionParts(s: Section, maxChars: nat, overlap: nat): seq<string> {
    Split(Strip(Join(s.lines)), maxChars, overlap)
  }

  function Texts(placed: seq<Placed>): seq<string> {
    seq(|placed|, i requires 0 <= i < |placed| => placed[i].text)
  }

  lemma SectionLosesNothing(s: Section, maxChars: nat, overlap: nat)
    requires OneLiners(s.lines)
    ensures NonBlank(Lines(Recover(SectionParts(s, maxChars, overlap), overlap))) == NonBlank(s.lines)
  {
    SplitLosesNothing(Strip(Join(s.lines)), maxChars, overlap);
    LinesOfStrip(Join(s.lines));
    LinesOfJoin(s.lines);
  }

  lemma {:induction false} SectionsLoseNothing(sections: seq<Section>, maxChars: nat, overlap: nat)
    requires OneLiners(Texts(Expand(sections)))
    ensures RecoveredLines(sections, maxChars, overlap) == NonBlank(Texts(Expand(sections)))
  {
    if sections != [] {
      var init, s := sections[..|sections| - 1], sections[|sections| - 1];
      var before, own := Texts(Expand(init)), Texts(Lined(s));
      assert Texts(Expand(sections)) == before + own && own == s.lines;
      forall i | 0 <= i < |before| ensures NoLineBreak(before[i]) {
        assert before[i] == Texts(Expand(sections))[i];
      }
      forall i | 0 <= i < |own| ensures NoLineBreak(own[i]) {
        assert own[i] == Texts(Expand(sections))[|before| + i];
      }
      SectionsLoseNothing(init, maxChars, overlap);
      SectionLosesNothing(s, maxChars, overlap);
      NonBlankConcat(before, own);
    }
  }

  /** The text of a chunk without its section prefix; a table has none. */
  function OwnParts(b: Body): seq<string> {
    if b.kind.Tabular? then [] else [DropFirst(b.content, |Prefix(b.path)|)]
  }

  function PartsOf(bodies: seq<Body>): seq<string> {
    FlatMap(OwnParts, bodies)
  }

  /** How many parts each section was cut into. */
  function PartCounts(sections: seq<Section>, maxChars: nat, overlap: nat): seq<nat> {
    if sections == [] then []
    else
      PartCounts(sections[..|sections| - 1], maxChars, overlap) +
      [|SectionParts(sections[|sections| - 1], maxChars, overlap)|]
  }

  /** The lines read back from text parts, taken section by section. */
  function ReadBack(parts: seq<string>, counts: seq<nat>, overlap: nat): seq<string>
    decreases |counts|
  {
    if counts == [] || counts[|counts| - 1] > |parts| then []
    else
      var cut := |parts| - counts[|counts| - 1];
      ReadBack(parts[..cut], counts[..|counts| - 1], overlap) + NonBlank(Lines(Recover(parts[cut..], overlap)))
  }

  function BodiesIn(chunks: seq<Chunk>): seq<Body> {
    seq(|chunks|, i requires 0 <= i < |chunks| => chunks[i].body)
  }

  lemma PrefixDropped(s: Section, part: string)
    ensures OwnParts(TextBody(s, part)) == [part]
  {
    assert (Prefix(s.path) + part)[|Prefix(s.path)|..] == part;
  }

  lemma {:induction false} PartsOfSection(s: Section, parts: seq<string>)
    ensures PartsOf(SectionBodies(s, parts)) == parts
  {
    if parts != [] {
      var n := |parts| - 1;
      PartsOfSection(s, parts[..n]);
      assert SectionBodies(s, parts)[..n] == SectionBodies(s, parts[..n]);
      PrefixDropped(s, parts[n]);
    }
  }

  predicate AllTables(bodies: seq<Body>) {
    forall i :: 0 <= i < |bodies| ==> bodies[i].kind.Tabular?
  }

  lemma {:induction false} TablesHaveNoParts(bodies: seq<Body>)
    requires AllTables(bodies)
    ensures PartsOf(bodies) == []
  {
    if bodies != [] {
      TablesHaveNoParts(bodies[..|bodies| - 1]);
    }
  }

  lemma {:induction false} TableBodiesAreTables(pages: seq<Page>, paths: map<int, seq<string>>, title: string)
    ensures AllTables(TableBodies(pages, paths, title))
  {
    if pages != [] {
      TableBodiesAreTables(pages[..|pages| - 1], paths, title);
    }
  }

  lemma {:induction false} SectionsAreReadBack(sections: seq<Section>, maxChars: nat, overlap: nat)
    ensures ReadBack(PartsOf(TextBodies(sections, maxChars, overlap)), PartCounts(sections, maxChars, overlap), overlap)
            == RecoveredLines(sections, maxChars, overlap)
  {
    if sections != [] {
      var init, s := sections[..|sections| - 1], sections[|sections| - 1];
      var parts := SectionParts(s, maxChars, overlap);
      SectionsAreReadBack(init, maxChars, overlap);
      FlatMapConcat(OwnParts, TextBodies(init, maxChars, overlap), SectionBodies(s, parts));
      PartsOfSection(s, parts);
      var before := PartsOf(TextBodies(init, maxChars, overlap));
      assert (before + parts)[..|before|] == before && (before + parts)[|before|..] == parts;
      var counts := PartCounts(init, maxChars, overlap);
      assert (counts + [|parts|])[..|counts|] == counts;
    }
  }

  /** The chunks of a document give back every body line that says something, once and in order. */
  predicate GivesBackLines(pages: seq<Page>, title: string, maxChars: nat, overlap: nat, chunks: seq<Chunk>) {
    ReadBack(
      PartsOf(BodiesIn(chunks)), PartCounts(Sections(AllEntries(pages), title), maxChars, overlap), overlap)
    == NonBlank(Texts(PlacedLines(AllEntries(pages), title)))
  }

  /** Main result: for any pages and any limits nothing is lost between the pages and the numbered
      chunks. Lines of a page hold no line break. */
  lemma DocumentLosesNothing(pages: seq<Page>, title: string, maxChars: nat, overlap: nat)
    requires OneLiners(Texts(PlacedLines(AllEntries(pages), title)))
    ensures GivesBackLines(pages, title, maxChars, overlap, Numbered(AllBodies(pages, title, maxChars, overlap)))
  {
    var sections := Sections(AllEntries(pages), title);
    var texts := TextBodies(sections, maxChars, overlap);
    var tables := TableBodies(pages, PagePaths(pages, title), title);
    EveryLineInOneSection(AllEntries(pages), title);
    SectionsLoseNothing(sections, maxChars, overlap);
    SectionsAreReadBack(sections, maxChars, overlap);
    TableBodiesAreTables(pages, PagePaths(pages, title), title);
    TablesHaveNoParts(tables);
    FlatMapConcat(OwnParts, texts, tables);
    assert BodiesIn(Numbered(texts + tables)) == texts + tables;
    assert PartsOf(texts) + [] == PartsOf(texts);
  }

  // ----- page ranges

  predicate Ascending(entries: seq<Entry>) {
    && (forall i :: 0 <= i < |entries| ==> 1 <= entries[i].page)
    && forall i, j :: 0 <= i < j < |entries| ==> entries[i].page <= entries[j].page
  }

  /** Sections are not empty, span a forward range of pages, and follow each other. */
  predicate WellRanged(sections: seq<Section>, upTo: int) {
    if sections == [] then true
    else
      var s := sections[|sections| - 1];
      && WellRanged(sections[..|sections| - 1], s.pageStart)
      && s.lines != [] && 1 <= s.pageStart <= s.pageEnd <= upTo
  }

  lemma {:induction false} WellRangedLater(sections: seq<Section>, upTo: int, later: int)
    requires WellRanged(sections, upTo) && upTo <= later
    ensures WellRanged(sections, later)
  {
  }

  lemma FlushedRanges(c: Cursor, upTo: int)
    requires WellRanged(c.done, c.current.pageStart) && 1 <= c.current.pageStart <= c.current.pageEnd <= upTo
    ensures WellRanged(Flush(c), upTo)
  {
    var more := c.done + [c.current];
    assert more[..|more| - 1] == c.done && more[|more| - 1] == c.current;
    WellRangedLater(c.done, c.current.pageStart, upTo);
  }

  lemma {:induction false} WalkRanges(entries: seq<Entry>, title: string)
    requires Ascending(entries)
    ensures var c, upTo := Walk(entries, title), if entries == [] then 1 else entries[|entries| - 1].page;
            WellRanged(c.done, c.current.pageStart) && 1 <= c.current.pageStart <= c.current.pageEnd <= upTo
  {
    if entries != [] {
      var init, e := entries[..|entries| - 1], entries[|entries| - 1];
      WalkRanges(init, title);
      var c := Walk(init, title);
      if e.line.heading.Some? {
        FlushedRanges(c, e.page);
      }
    }
  }

  /** When page numbers ascend from one, sections follow each other and each spans pages forward. */
  lemma SectionsSpanForward(entries: seq<Entry>, title: string)
    requires Ascending(entries)
    ensures WellRanged(Sections(entries, title), if entries == [] then 1 else entries[|entries| - 1].page)
  {
    WalkRanges(entries, title);
    FlushedRanges(Walk(entries, title), if entries == [] then 1 else entries[|entries| - 1].page);
  }

  lemma {:induction false} TextBodiesSpanForward(sections: seq<Section>, upTo: int, maxChars: nat, overlap: nat)
    requires WellRanged(sections, upTo)
    ensures forall b :: b in TextBodies(sections, maxChars, overlap) ==> 1 <= b.pageStart <= b.pageEnd <= upTo
  {
    if sections != [] {
      TextBodiesSpanForward(sections[..|sections| - 1], sections[|sections| - 1].pageStart, maxChars, overlap);
    }
  }

  lemma {:induction false} TableBodiesSpanForward(pages: seq<Page>, paths: map<int, seq<string>>, title: string)
    ensures forall b :: b in TableBodies(pages, paths, title) ==> b.pageStart == b.pageEnd
  {
    if pages != [] {
      TableBodiesSpanForward(pages[..|pages| - 1], paths, title);
    }
  }

  /** Ordinals count from zero without gaps, and no chunk's pages run backwards. */
  lemma ChunksAreOrderly(pages: seq<Page>, title: string, maxChars: nat, overlap: nat)
    requires Ascending(AllEntries(pages))
    ensures var chunks := Numbered(AllBodies(pages, title, maxChars, overlap));
            forall i :: 0 <= i < |chunks| ==>
                chunks[i].ordinal == i && chunks[i].body.pageStart <= chunks[i].body.pageEnd
  {
    var entries := AllEntries(pages);
    SectionsSpanForward(entries, title);
    var upTo := if entries == [] then 1 else entries[|entries| - 1].page;
    TextBodiesSpanForward(Sections(entries, title), upTo, maxChars, overlap);
    TableBodiesSpanForward(pages, PagePaths(pages, title), title);
    var bodies := AllBodies(pages, title, maxChars, overlap);
    forall i | 0 <= i < |bodies| ensures bodies[i].pageStart <= bodies[i].pageEnd {
      assert bodies[i] in bodies;
    }
  }
}
