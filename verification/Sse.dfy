/** The server-sent event stream: how the service prints events and how the scenario script reads them. */
module Sse {
  import opened Common
  import opened Text

  /** An event with its payload already printed as JSON. */
  datatype Event = Event(id: string, name: string, data: string)

  /** What the service puts on the wire, in order. */
  datatype Item = Message(event: Event) | Heartbeat

  datatype Parsed = Parsed(id: Option<string>, event: string, data: string)

  function Print(e: Event): string {
    "id: " + e.id + "\nevent: " + e.name + "\ndata: " + e.data + "\n\n"
  }

  function PrintItem(item: Item): string {
    match item
    case Message(e) => Print(e)
    case Heartbeat => ": heartbeat\n\n"
  }

  function PrintAll(items: seq<Item>): string {
    if items == [] then "" else PrintItem(items[0]) + PrintAll(items[1..])
  }

  // ----- the reader

  function Unix(t: string): string {
    if t == "" then ""
    else if |t| >= 2 && t[0] == '\r' && t[1] == '\n' then "\n" + Unix(t[2..])
    else [t[0]] + Unix(t[1..])
  }

  /** The text cut at each blank line, from the left. */
  function Blocks(t: string): (r: seq<string>)
    ensures r != []
  {
    if |t| < 2 then [t]
    else if t[0] == '\n' && t[1] == '\n' then [""] + Blocks(t[2..])
    else
      var rest := Blocks(t[1..]);
      [[t[0]] + rest[0]] + rest[1..]
  }

  /** The position of the first colon, or the length of the line. */
  function Colon(line: string): (n: nat)
    ensures n <= |line|
  {
    if line == "" || line[0] == ':' then 0 else 1 + Colon(line[1..])
  }

  function Fields(lines: seq<string>): map<string, string> {
    if lines == [] then map[]
    else
      var before, line := Fields(lines[..|lines| - 1]), lines[|lines| - 1];
      var n := Colon(line);
      if n == |line| then before else before[line[..n] := StripLeft(line[n + 1..])]
  }

  predicate Skipped(block: string) {
    Strip(block) == "" || ":" <= StripLeft(block)
  }

  function Assemble(fields: map<string, string>): seq<Parsed> {
    if "event" !in fields || "data" !in fields then []
    else [Parsed(if "id" in fields then Some(fields["id"]) else None, fields["event"], fields["data"])]
  }

  function ParseBlock(block: string): seq<Parsed> {
    if Skipped(block) then [] else Assemble(Fields(Lines(block)))
  }

  function ParseBlocks(blocks: seq<string>): seq<Parsed> {
    FlatMap(ParseBlock, blocks)
  }

  function Parse(text: string): seq<Parsed> {
    ParseBlocks(Blocks(Unix(text)))
  }

  method ReadFields(block: string) returns (fields: map<string, string>)
    ensures fields == Fields(Lines(block))
  {
    var lines := Lines(block);
    fields := map[];
    for i := 0 to |lines|
      invariant fields == Fields(lines[..i])
    {
      assert lines[..i + 1][..i] == lines[..i];
      var n := Colon(lines[i]);
      if n == |lines[i]| {
        continue;
      }
      fields := fields[lines[i][..n] := StripLeft(lines[i][n + 1..])];
    }
    assert lines[..|lines|] == lines;
  }

  method ParseSse(text: string) returns (events: seq<Parsed>)
    ensures events == Parse(text)
  {
    events := [];
    var blocks := Blocks(Unix(text));
    for i := 0 to |blocks|
      invariant events == ParseBlocks(blocks[..i])
    {
      assert blocks[..i + 1] == blocks[..i] + [blocks[i]];
      FlatMapSnoc(ParseBlock, blocks[..i], blocks[i]);
      if Skipped(blocks[i]) {
        continue;
      }
      var fields := ReadFields(blocks[i]);
      if "event" !in fields || "data" !in fields {
        continue;
      }
      events := events + [Parsed(if "id" in fields then Some(fields["id"]) else None, fields["event"], fields["data"])];
    }
    assert blocks[..|blocks|] == blocks;
  }

  // ----- the round trip

  /** Identifiers and event names: not empty, on one line, not starting with white space. */
  predicate Token(s: string) {
    s != "" && NoLineBreak(s) && !IsSpace(s[0])
  }

  /** A printed JSON object: it starts with a brace and has every control character escaped. */
  predicate JsonObject(s: string) {
    s != "" && s[0] == '{' && forall i :: 0 <= i < |s| ==> s[i] >= ' '
  }

  predicate Printable(e: Event) {
    Token(e.id) && Token(e.name) && JsonObject(e.data)
  }

  predicate AllPrintable(items: seq<Item>) {
    forall i :: 0 <= i < |items| && items[i].Message? ==> Printable(items[i].event)
  }

  predicate SingleLineData(items: seq<Item>) {
    forall i :: 0 <= i < |items| && items[i].Message? ==> NoLineBreak(items[i].event.data)
  }

  /** The events of a stream, as a reader should see them. */
  function Expected(items: seq<Item>): seq<Parsed> {
    if items == [] then []
    else
      var rest := Expected(items[1..]);
      match items[0]
      case Message(e) => [Parsed(Some(e.id), e.name, e.data)] + rest
      case Heartbeat => rest
  }

  /** A block without its terminating blank line. */
  function Body(item: Item): string {
    match item
    case Message(e) => "id: " + e.id + "\nevent: " + e.name + "\ndata: " + e.data
    case Heartbeat => ": heartbeat"
  }

  function Bodies(items: seq<Item>): seq<string> {
    if items == [] then [] else [Body(items[0])] + Bodies(items[1..])
  }

  /** No two adjacent newlines, and none at the end. */
  predicate Tight(s: string) {
    && (forall i :: 0 <= i < |s| - 1 ==> s[i] != '\n' || s[i + 1] != '\n')
    && (s == "" || s[|s| - 1] != '\n')
  }

  predicate NoReturn(s: string) {
    forall i :: 0 <= i < |s| ==> s[i] != '\r'
  }

  lemma {:induction false} UnixOfNoReturn(t: string)
    requires NoReturn(t)
    ensures Unix(t) == t
  {
    if t != "" {
      UnixOfNoReturn(t[1..]);
    }
  }

  lemma {:induction false} BlocksOfTight(b: string, rest: string)
    requires Tight(b)
    ensures Blocks(b + "\n\n" + rest) == [b] + Blocks(rest)
  {
    var t := b + "\n\n" + rest;
    if b == "" {
      assert t[2..] == rest;
    } else {
      BlocksOfTight(b[1..], rest);
      assert t[1..] == b[1..] + "\n\n" + rest;
      assert !(t[0] == '\n' && t[1] == '\n');
      assert [b[0]] + b[1..] == b;
    }
  }

  /** Every value that can be read lies on one line. */
  lemma {:induction false} FieldsHaveNoLineBreak(lines: seq<string>)
    requires forall line :: line in lines ==> NoLineBreak(line)
    ensures forall k :: k in Fields(lines) ==> NoLineBreak(Fields(lines)[k])
  {
    if lines != [] {
      FieldsHaveNoLineBreak(lines[..|lines| - 1]);
      var line := lines[|lines| - 1];
      assert NoLineBreak(line);
      if Colon(line) < |line| {
        ValueHasNoLineBreak(line, Colon(line) + 1);
      }
    }
  }

  lemma ValueHasNoLineBreak(line: string, from: nat)
    requires from <= |line| && NoLineBreak(line)
    ensures NoLineBreak(StripLeft(line[from..]))
  {
    var tail := line[from..];
    assert forall i :: 0 <= i < |tail| ==> tail[i] == line[from + i];
    StripLeftShape(tail);
    var cut := |tail| - |StripLeft(tail)|;
    assert forall i :: 0 <= i < |StripLeft(tail)| ==> StripLeft(tail)[i] == tail[cut + i];
  }

  lemma BlockDataHasNoLineBreak(block: string)
    ensures forall p :: p in ParseBlock(block) ==> NoLineBreak(p.data)
  {
    FieldsHaveNoLineBreak(Lines(block));
  }

  lemma {:induction false} ParsedDataHasNoLineBreak(blocks: seq<string>)
    ensures forall p :: p in ParseBlocks(blocks) ==> NoLineBreak(p.data)
  {
    if blocks != [] {
      ParsedDataHasNoLineBreak(blocks[..|blocks| - 1]);
      BlockDataHasNoLineBreak(blocks[|blocks| - 1]);
    }
  }

  lemma {:induction false} ColonAfter(key: string, rest: string)
    requires ':' !in key
    ensures Colon(key + ":" + rest) == |key|
  {
    if key != "" {
      assert (key + ":" + rest)[1..] == key[1..] + ":" + rest;
      ColonAfter(key[1..], rest);
    }
  }

  lemma FieldsSnoc(lines: seq<string>, key: string, value: string)
    requires ':' !in key && value != "" && !IsSpace(value[0])
    ensures Fields(lines + [key + ": " + value]) == Fields(lines)[key := value]
  {
    var line := key + ": " + value;
    assert line == key + ":" + (" " + value);
    ColonAfter(key, " " + value);
    assert line[..|key|] == key && line[|key| + 1..] == " " + value;
    assert (" " + value)[1..] == value;
    assert StripLeft(" " + value) == StripLeft(value) == value;
    var more := lines + [line];
    assert more[..|more| - 1] == lines && more[|more| - 1] == line;
  }

  /** No newline and no carriage return. */
  predicate Plain(s: string) {
    forall i :: 0 <= i < |s| ==> s[i] != '\n' && s[i] != '\r'
  }

  lemma TightJoin(a: string, t: string)
    requires Plain(a) && t != "" && t[0] != '\n' && Tight(t) && NoReturn(t)
    requires a != ""
    ensures Tight(a + "\n" + t) && NoReturn(a + "\n" + t)
  {
    var s := a + "\n" + t;
    forall i | 0 <= i < |s| - 1 ensures s[i] != '\n' || s[i + 1] != '\n' {
      if i > |a| {
        assert s[i] == t[i - |a| - 1] && s[i + 1] == t[i - |a|];
      } else if i == |a| {
        assert s[i + 1] == t[0];
      }
    }
    assert s[|s| - 1] == t[|t| - 1];
  }

  lemma LineIsPlain(prefix: string, value: string)
    requires prefix != "" && Plain(prefix) && Plain(value)
    ensures Plain(prefix + value) && Tight(prefix + value) && NoReturn(prefix + value)
    ensures (prefix + value)[0] == prefix[0] != '\n'
  {
  }

  lemma BodyIsTight(e: Event)
    requires Printable(e)
    ensures Tight(Body(Message(e))) && NoReturn(Body(Message(e)))
  {
    var l1, l2, l3 := "id: " + e.id, "event: " + e.name, "data: " + e.data;
    LineIsPlain("id: ", e.id);
    LineIsPlain("event: ", e.name);
    LineIsPlain("data: ", e.data);
    TightJoin(l2, l3);
    TightJoin(l1, l2 + "\n" + l3);
    assert Body(Message(e)) == l1 + "\n" + (l2 + "\n" + l3);
  }

  lemma BodyIsRead(e: Event)
    requires Printable(e)
    ensures !Skipped(Body(Message(e)))
  {
    var body := Body(Message(e));
    assert body[0] == 'i';
    StripShape(body);
    assert !Blank(body);
    assert StripLeft(body) == body;
  }

  lemma HeartbeatIsSkipped()
    ensures Tight(Body(Heartbeat)) && NoReturn(Body(Heartbeat)) && Skipped(Body(Heartbeat)) && Skipped("")
  {
    assert StripLeft(": heartbeat") == ": heartbeat";
  }

  lemma PrefixesSpelled(e: Event)
    ensures ["id: " + e.id, "event: " + e.name, "data: " + e.data] ==
            ["id" + ": " + e.id, "event" + ": " + e.name, "data" + ": " + e.data]
  {
    assert "id: " == "id" + ": " && "event: " == "event" + ": " && "data: " == "data" + ": ";
  }

  lemma OneLine(prefix: string, value: string)
    requires NoLineBreak(prefix) && NoLineBreak(value)
    ensures NoLineBreak(prefix + value)
  {
  }

  lemma BodyLines(e: Event)
    requires Printable(e) && NoLineBreak(e.data)
    ensures Lines(Body(Message(e))) == ["id: " + e.id, "event: " + e.name, "data: " + e.data]
  {
    var l1, l2, l3 := "id: " + e.id, "event: " + e.name, "data: " + e.data;
    OneLine("id: ", e.id);
    OneLine("event: ", e.name);
    OneLine("data: ", e.data);
    assert Body(Message(e)) == l1 + "\n" + (l2 + "\n" + l3);
    LinesOfLine(l1, l2 + "\n" + l3);
    LinesOfLine(l2, l3);
    LinesOfLine(l3, "");
    assert l3[0] == 'd';
  }

  lemma ThreeFields(k1: string, v1: string, k2: string, v2: string, k3: string, v3: string)
    requires ':' !in k1 && ':' !in k2 && ':' !in k3
    requires v1 != "" && !IsSpace(v1[0]) && v2 != "" && !IsSpace(v2[0]) && v3 != "" && !IsSpace(v3[0])
    ensures Fields([k1 + ": " + v1, k2 + ": " + v2, k3 + ": " + v3]) == map[k1 := v1][k2 := v2][k3 := v3]
  {
    var l1, l2, l3 := k1 + ": " + v1, k2 + ": " + v2, k3 + ": " + v3;
    FieldsSnoc([], k1, v1);
    FieldsSnoc([l1], k2, v2);
    FieldsSnoc([l1, l2], k3, v3);
    assert [] + [l1] == [l1] && [l1] + [l2] == [l1, l2] && [l1, l2] + [l3] == [l1, l2, l3];
  }

  lemma BodyFields(e: Event)
    requires Printable(e) && NoLineBreak(e.data)
    ensures Fields(Lines(Body(Message(e)))) == map["id" := e.id]["event" := e.name]["data" := e.data]
  {
    BodyLines(e);
    PrefixesSpelled(e);
    NamesAreFine();
    ThreeFields("id", e.id, "event", e.name, "data", e.data);
  }

  /** A single-line message is read back field by field. */
  lemma BodyIsParsed(e: Event)
    requires Printable(e) && NoLineBreak(e.data)
    ensures ParseBlock(Body(Message(e))) == [Parsed(Some(e.id), e.name, e.data)]
  {
    BodyIsRead(e);
    BodyFields(e);
    AssembleThree(e.id, e.name, e.data);
  }

  lemma AssembleThree(id: string, name: string, data: string)
    ensures Assemble(map["id" := id]["event" := name]["data" := data]) == [Parsed(Some(id), name, data)]
  {
    NamesAreFine();
  }

  lemma NamesAreFine()
    ensures "id" != "event" && "id" != "data" && "event" != "data"
    ensures ':' !in "id" && ':' !in "event" && ':' !in "data"
  {
    assert |"id"| != |"event"| && |"id"| != |"data"| && |"event"| != |"data"|;
  }

  lemma ItemIsTight(item: Item)
    requires item.Message? ==> Printable(item.event)
    ensures Tight(Body(item)) && NoReturn(Body(item)) && PrintItem(item) == Body(item) + "\n\n"
  {
    match item
    case Message(e) => BodyIsTight(e);
    case Heartbeat => HeartbeatIsSkipped();
  }

  lemma TailIsPrintable(items: seq<Item>)
    requires items != [] && AllPrintable(items)
    ensures items[0].Message? ==> Printable(items[0].event)
    ensures AllPrintable(items[1..])
    ensures SingleLineData(items) ==>
              SingleLineData(items[1..]) && (items[0].Message? ==> NoLineBreak(items[0].event.data))
  {
    assert forall i :: 0 <= i < |items| - 1 ==> items[1..][i] == items[i + 1];
  }

  /** The printed stream falls apart into exactly the printed blocks and an empty tail. */
  lemma {:induction false} StreamFallsIntoBlocks(items: seq<Item>)
    requires AllPrintable(items)
    ensures Blocks(PrintAll(items)) == Bodies(items) + [""]
    ensures NoReturn(PrintAll(items))
  {
    if items != [] {
      var rest := PrintAll(items[1..]);
      TailIsPrintable(items);
      StreamFallsIntoBlocks(items[1..]);
      ItemIsTight(items[0]);
      BlocksOfTight(Body(items[0]), rest);
      assert PrintAll(items) == Body(items[0]) + "\n\n" + rest;
    }
  }

  lemma ItemIsParsed(item: Item)
    requires item.Message? ==> Printable(item.event) && NoLineBreak(item.event.data)
    ensures ParseBlock(Body(item)) == match item
                                      case Message(e) => [Parsed(Some(e.id), e.name, e.data)]
                                      case Heartbeat => []
  {
    HeartbeatIsSkipped();
    if item.Message? {
      BodyIsParsed(item.event);
    }
  }

  lemma FirstBlockFirst(block: string, rest: seq<string>)
    ensures ParseBlocks([block] + rest) == ParseBlock(block) + ParseBlocks(rest)
  {
    FlatMapConcat(ParseBlock, [block], rest);
    FlatMapSnoc(ParseBlock, [], block);
    assert [] + [block] == [block];
  }

  lemma {:induction false} BodiesAreParsed(items: seq<Item>)
    requires AllPrintable(items) && SingleLineData(items)
    ensures ParseBlocks(Bodies(items)) == Expected(items)
  {
    if items != [] {
      TailIsPrintable(items);
      BodiesAreParsed(items[1..]);
      ItemIsParsed(items[0]);
      FirstBlockFirst(Body(items[0]), Bodies(items[1..]));
    }
  }

  lemma {:induction false} ExpectedHolds(items: seq<Item>, k: nat) returns (i: nat)
    requires k < |items| && items[k].Message?
    ensures i < |Expected(items)| && Expected(items)[i].data == items[k].event.data
  {
    if k == 0 {
      i := 0;
    } else {
      i := ExpectedHolds(items[1..], k - 1);
      if items[0].Message? {
        i := i + 1;
      }
    }
  }

  /** Exactly the data that lies on one line is read back. */
  lemma SingleLinesAreReadBackIff(items: seq<Item>)
    requires AllPrintable(items)
    ensures Parse(PrintAll(items)) == Expected(items) <==> SingleLineData(items)
  {
    StreamFallsIntoBlocks(items);
    UnixOfNoReturn(PrintAll(items));
    if SingleLineData(items) {
      BodiesAreParsed(items);
      HeartbeatIsSkipped();
      assert (Bodies(items) + [""])[..|Bodies(items)|] == Bodies(items);
    }
    ParsedDataHasNoLineBreak(Bodies(items) + [""]);
    if Parse(PrintAll(items)) == Expected(items) {
      forall k | 0 <= k < |items| && items[k].Message? ensures NoLineBreak(items[k].event.data) {
        var i := ExpectedHolds(items, k);
      }
    }
  }

  /** The three characters that break lines and that the JSON printer leaves as they are. */
  predicate HasSeparator(s: string) {
    '\U{0085}' in s || '\U{2028}' in s || '\U{2029}' in s
  }

  lemma OnlySeparatorsBreakLines(s: string)
    requires JsonObject(s)
    ensures NoLineBreak(s) <==> !HasSeparator(s)
  {
  }

  /** The reader gets back the identifiers, names and data of the events, in order and whatever
      heartbeats lie between them, exactly when no data holds one of three characters. */
  lemma StreamIsReadBackIff(items: seq<Item>)
    requires AllPrintable(items)
    ensures Parse(PrintAll(items)) == Expected(items) <==>
            forall i :: 0 <= i < |items| && items[i].Message? ==> !HasSeparator(items[i].event.data)
  {
    SingleLinesAreReadBackIff(items);
    forall i | 0 <= i < |items| && items[i].Message?
      ensures NoLineBreak(items[i].event.data) <==> !HasSeparator(items[i].event.data)
    {
      OnlySeparatorsBreakLines(items[i].event.data);
    }
  }

  lemma EventIsReadBackIff(e: Event)
    requires Printable(e)
    ensures Parse(Print(e)) == [Parsed(Some(e.id), e.name, e.data)] <==> !HasSeparator(e.data)
  {
    var items := [Message(e)];
    assert items[1..] == [] && PrintAll(items) == Print(e);
    assert Expected(items) == [Parsed(Some(e.id), e.name, e.data)];
    StreamIsReadBackIff(items);
    assert items[0].Message? && items[0].event == e;
  }

  /** A line separator inside an answer makes the reader lose the rest of the payload. */
  lemma LineSeparatorCutsData()
    ensures var e := Event("r", "answer.delta", "{\U{2028}}");
            Printable(e) && Parse(Print(e)) != [Parsed(Some(e.id), e.name, e.data)]
  {
    var e := Event("r", "answer.delta", "{\U{2028}}");
    assert e.data[1] == '\U{2028}' && e.name[0] == 'a' && e.id[0] == 'r';
    EventIsReadBackIff(e);
  }

  // ----- any text whatsoever

  predicate NoDouble(s: string) {
    forall i :: 0 <= i < |s| - 1 ==> s[i] != '\n' || s[i + 1] != '\n'
  }

  function Rejoined(blocks: seq<string>): string
    requires blocks != []
  {
    if |blocks| == 1 then blocks[0] else blocks[0] + "\n\n" + Rejoined(blocks[1..])
  }

  /** Each block but the last ends at the first blank line there is, the last holds none. */
  predicate CutAtBlankLines(blocks: seq<string>) {
    && blocks != [] && NoDouble(blocks[|blocks| - 1])
    && forall k :: 0 <= k < |blocks| - 1 ==> Tight(blocks[k])
  }

  lemma NoDoubleCons(c: char, s: string)
    requires NoDouble(s) && (c == '\n' && s != "" ==> s[0] != '\n')
    ensures NoDouble([c] + s)
    ensures Tight(s) && (c == '\n' ==> s != "") ==> Tight([c] + s)
  {
    var t := [c] + s;
    forall i | 0 <= i < |t| - 1 ensures t[i] != '\n' || t[i + 1] != '\n' {
      assert i > 0 ==> t[i] == s[i - 1];
      assert t[i + 1] == s[i];
    }
  }

  lemma LongerFirstBlock(c: char, rest: seq<string>)
    requires CutAtBlankLines(rest)
    requires c == '\n' ==> if rest[0] == "" then |rest| == 1 else rest[0][0] != '\n'
    ensures CutAtBlankLines([[c] + rest[0]] + rest[1..])
    ensures Rejoined([[c] + rest[0]] + rest[1..]) == [c] + Rejoined(rest)
  {
    NoDoubleCons(c, rest[0]);
    if |rest| == 1 {
      assert [[c] + rest[0]] + rest[1..] == [[c] + rest[0]];
    } else {
      OtherFirstBlock([c] + rest[0], rest);
      JoinLater(c, rest[0], Rejoined(rest[1..]));
    }
  }

  lemma JoinLater(c: char, a: string, b: string)
    ensures [c] + a + "\n\n" + b == [c] + (a + "\n\n" + b)
  {
  }

  lemma OtherFirstBlock(first: string, rest: seq<string>)
    requires CutAtBlankLines(rest) && |rest| > 1 && Tight(first)
    ensures CutAtBlankLines([first] + rest[1..])
    ensures Rejoined([first] + rest[1..]) == first + "\n\n" + Rejoined(rest[1..])
  {
    var more := [first] + rest[1..];
    assert more[1..] == rest[1..];
    assert forall k :: 0 < k < |rest| ==> more[k] == rest[k];
  }

  lemma {:induction false} BlocksRejoin(t: string)
    ensures CutAtBlankLines(Blocks(t)) && Rejoined(Blocks(t)) == t
    ensures t != "" && t[0] != '\n' ==> Blocks(t)[0] != "" && Blocks(t)[0][0] == t[0]
    ensures |t| == 1 ==> Blocks(t) == [t]
    ensures t == "\n" || (|t| >= 2 && t[0] == '\n' && t[1] != '\n') ==> Blocks(t)[0] != ""
  {
    if |t| >= 2 {
      if t[0] == '\n' && t[1] == '\n' {
        BlocksRejoin(t[2..]);
        var rest := Blocks(t[2..]);
        assert ([""] + rest)[1..] == rest && "" + "\n\n" + t[2..] == t;
      } else {
        BlocksRejoin(t[1..]);
        LongerFirstBlock(t[0], Blocks(t[1..]));
      }
    }
  }

  lemma {:induction false} NoCutInside(t: string)
    requires NoDouble(t)
    ensures Blocks(t) == [t]
  {
    if |t| >= 2 {
      assert forall i :: 0 <= i < |t| - 1 ==> t[1..][i] == t[i + 1];
      NoCutInside(t[1..]);
      assert [t[0]] + t[1..] == t;
    }
  }

  /** The reader's blocks are the one way to cut a text at its blank lines, from the left. */
  lemma {:induction false} BlocksAreTheCutIff(t: string, blocks: seq<string>)
    ensures blocks == Blocks(t) <==> CutAtBlankLines(blocks) && Rejoined(blocks) == t
    decreases |blocks|
  {
    BlocksRejoin(t);
    if CutAtBlankLines(blocks) && Rejoined(blocks) == t {
      if |blocks| == 1 {
        NoCutInside(t);
      } else {
        var rest := blocks[1..];
        assert forall k :: 0 <= k < |rest| ==> rest[k] == blocks[k + 1];
        BlocksAreTheCutIff(Rejoined(rest), rest);
        BlocksOfTight(blocks[0], Rejoined(rest));
      }
    }
  }

  /** The text as it looks when every newline comes with a carriage return. */
  function WithReturns(t: string): string {
    if t == "" then "" else (if t[0] == '\n' then "\r\n" else [t[0]]) + WithReturns(t[1..])
  }

  lemma {:induction false} UnixDropsReturns(t: string)
    requires NoReturn(t)
    ensures Unix(WithReturns(t)) == t
  {
    if t != "" {
      UnixDropsReturns(t[1..]);
      var w := WithReturns(t);
      if t[0] == '\n' {
        assert w[2..] == WithReturns(t[1..]);
      } else {
        assert w[1..] == WithReturns(t[1..]);
      }
      assert [t[0]] + t[1..] == t;
    }
  }

  /** A server that ends its lines with a carriage return and a newline is read in the same way. */
  lemma ReturnsDoNotMatter(t: string)
    requires NoReturn(t)
    ensures Parse(WithReturns(t)) == Parse(t)
  {
    UnixDropsReturns(t);
    UnixOfNoReturn(t);
  }

  /** The line names the key before its first colon. */
  predicate Names(line: string, key: string) {
    |key| < |line| && line[..|key|] == key && line[|key|] == ':' && ':' !in key
  }

  lemma {:induction false} ColonMeans(line: string)
    ensures ':' !in line[..Colon(line)] && (Colon(line) < |line| ==> line[Colon(line)] == ':')
    ensures Colon(line) == |line| <==> ':' !in line
  {
    if line != "" && line[0] != ':' {
      ColonMeans(line[1..]);
      var n := Colon(line);
      assert line[..n] == [line[0]] + line[1..][..n - 1] && line == [line[0]] + line[1..];
    }
  }

  lemma NamedBeforeColon(line: string, key: string)
    requires Names(line, key)
    ensures Colon(line) == |key|
  {
    ColonAfter(key, line[|key| + 1..]);
    assert line == key + ":" + line[|key| + 1..];
  }

  lemma BeforeColonIsNamed(line: string)
    requires Colon(line) < |line|
    ensures Names(line, line[..Colon(line)])
  {
    ColonMeans(line);
  }

  /** What one more line does to the field of a key. */
  lemma FieldsGrow(lines: seq<string>, key: string)
    requires lines != []
    ensures var init, line := lines[..|lines| - 1], lines[|lines| - 1];
            if Names(line, key) then key in Fields(lines) && Fields(lines)[key] == StripLeft(line[|key| + 1..])
            else key in Fields(lines) <==> key in Fields(init)
    ensures var init, line := lines[..|lines| - 1], lines[|lines| - 1];
            !Names(line, key) && key in Fields(init) ==> Fields(lines)[key] == Fields(init)[key]
  {
    var line := lines[|lines| - 1];
    if Names(line, key) {
      NamedBeforeColon(line, key);
    } else if Colon(line) < |line| {
      BeforeColonIsNamed(line);
    }
  }

  /** Which line gives a field its value: the last that names it, without the white space after the colon. */
  lemma {:induction false} FieldIsLastNamed(lines: seq<string>, key: string, i: nat)
    requires i < |lines| && Names(lines[i], key) && forall j :: i < j < |lines| ==> !Names(lines[j], key)
    ensures key in Fields(lines) && Fields(lines)[key] == StripLeft(lines[i][|key| + 1..])
  {
    FieldsGrow(lines, key);
    if i < |lines| - 1 {
      FieldIsLastNamed(lines[..|lines| - 1], key, i);
    }
  }

  lemma {:induction false} FieldIsNamedIff(lines: seq<string>, key: string)
    ensures key in Fields(lines) <==> exists i :: 0 <= i < |lines| && Names(lines[i], key)
  {
    if lines != [] {
      var n := |lines| - 1;
      FieldsGrow(lines, key);
      FieldIsNamedIff(lines[..n], key);
      assert forall i :: 0 <= i < n ==> lines[..n][i] == lines[i];
      if i :| 0 <= i < n && Names(lines[i], key) {
        assert Names(lines[..n][i], key);
      }
    }
  }

  /** Blocks of white space and blocks that open with a colon are passed over. */
  lemma SkippedIff(block: string)
    ensures Skipped(block) <==>
            Blank(block) || exists i :: 0 <= i < |block| && Blank(block[..i]) && block[i] == ':'
  {
    StripShape(block);
    StripLeftShape(block);
    if Skipped(block) && !Blank(block) {
      var n := |block| - |StripLeft(block)|;
      assert block[n] == StripLeft(block)[0];
    }
    if i :| 0 <= i < |block| && Blank(block[..i]) && block[i] == ':' {
      forall k | 0 <= k < i ensures IsSpace(block[k]) {
        assert block[..i][k] == block[k];
      }
      StripLeftUpTo(block, i);
    }
  }

  lemma {:induction false} StripLeftUpTo(s: string, i: nat)
    requires i < |s| && !IsSpace(s[i]) && forall k :: 0 <= k < i ==> IsSpace(s[k])
    ensures StripLeft(s) == s[i..]
  {
    if i > 0 {
      StripLeftUpTo(s[1..], i - 1);
    }
  }

  predicate Given(block: string, key: string) {
    exists i :: 0 <= i < |Lines(block)| && Names(Lines(block)[i], key)
  }

  /** Exactly the blocks that name an event and its data, and are no comments, are read; the identifier may be
      missing. */
  lemma BlockIsReadIff(block: string)
    ensures |ParseBlock(block)| ==
            if !Skipped(block) && Given(block, "event") && Given(block, "data") then 1 else 0
    ensures ParseBlock(block) != [] ==> (ParseBlock(block)[0].id.Some? <==> Given(block, "id"))
  {
    FieldIsNamedIff(Lines(block), "event");
    FieldIsNamedIff(Lines(block), "data");
    FieldIsNamedIff(Lines(block), "id");
  }

  /** Where the three values of a read block come from. */
  lemma ReadValuesAreLastNamed(block: string, i: nat, key: string)
    requires ParseBlock(block) != [] && i < |Lines(block)| && Names(Lines(block)[i], key)
    requires forall j :: i < j < |Lines(block)| ==> !Names(Lines(block)[j], key)
    ensures var p, value := ParseBlock(block)[0], StripLeft(Lines(block)[i][|key| + 1..]);
            && (key == "event" ==> p.event == value) && (key == "data" ==> p.data == value)
            && (key == "id" ==> p.id == Some(value))
  {
    FieldIsLastNamed(Lines(block), key, i);
    NamesAreFine();
  }

  // ----- the shape of a stream

  const DELTA: string := "answer.delta"
  const DELTAS: string := "answer.delta+"

  /** Event names in order, each stretch of answer pieces written once. */
  function Structure(names: seq<string>): seq<string> {
    if names == [] then []
    else
      var before, name := Structure(names[..|names| - 1]), names[|names| - 1];
      if name != DELTA then before + [name]
      else if before != [] && before[|before| - 1] == DELTAS then before
      else before + [DELTAS]
  }

  method EventStructure(events: seq<Parsed>) returns (structure: seq<string>)
    ensures structure == Structure(NamesOf(events))
  {
    structure := [];
    for i := 0 to |events|
      invariant structure == Structure(NamesOf(events)[..i])
    {
      assert NamesOf(events)[..i + 1][..i] == NamesOf(events)[..i];
      var name := events[i].event;
      if name == DELTA {
        if structure == [] || structure[|structure| - 1] != DELTAS {
          structure := structure + [DELTAS];
        }
      } else {
        structure := structure + [name];
      }
    }
    assert NamesOf(events)[..|events|] == NamesOf(events);
  }

  function NamesOf(events: seq<Parsed>): seq<string> {
    seq(|events|, i requires 0 <= i < |events| => events[i].event)
  }

  /** How the answer was cut into pieces does not show in the structure. */
  lemma {:induction false} StructureIgnoresPieces(before: seq<string>, pieces: nat, after: seq<string>)
    requires pieces > 0
    ensures Structure(before + Repeated(pieces) + after) == Structure(before + [DELTA] + after)
    decreases pieces, |after|
  {
    if after != [] {
      var n := |after| - 1;
      StructureIgnoresPieces(before, pieces, after[..n]);
      StructureSnoc(before + Repeated(pieces) + after, before + Repeated(pieces) + after[..n], after[n]);
      StructureSnoc(before + [DELTA] + after, before + [DELTA] + after[..n], after[n]);
    } else if pieces == 1 {
      assert Repeated(1) == [DELTA];
    } else {
      StructureIgnoresPieces(before, pieces - 1, []);
      StructureSnoc(before + Repeated(pieces) + [], before + Repeated(pieces - 1) + [], DELTA);
      StructureSnoc(before + [DELTA] + [], before, DELTA);
    }
  }

  lemma StructureSnoc(names: seq<string>, init: seq<string>, name: string)
    requires names == init + [name]
    ensures Structure(names) ==
            if name != DELTA then Structure(init) + [name]
            else if Structure(init) != [] && Structure(init)[|Structure(init)| - 1] == DELTAS then Structure(init)
            else Structure(init) + [DELTAS]
  {
    assert names[..|names| - 1] == init;
  }

  /** The names that are no answer pieces. */
  function Others(names: seq<string>): seq<string> {
    if names == [] then []
    else Others(names[..|names| - 1]) + (if names[|names| - 1] == DELTA then [] else [names[|names| - 1]])
  }

  /** How often a stretch of answer pieces begins. */
  function Stretches(names: seq<string>): nat {
    if names == [] then 0
    else
      var n := |names| - 1;
      Stretches(names[..n]) + (if names[n] == DELTA && (n == 0 || names[n - 1] != DELTA) then 1 else 0)
  }

  /** The collapsed stretches of a structure, and what else is in it. */
  function Collapsed(structure: seq<string>): nat {
    if structure == [] then 0
    else Collapsed(structure[..|structure| - 1]) + (if structure[|structure| - 1] == DELTAS then 1 else 0)
  }

  function Uncollapsed(structure: seq<string>): seq<string> {
    if structure == [] then []
    else
      var n := |structure| - 1;
      Uncollapsed(structure[..n]) + (if structure[n] == DELTAS then [] else [structure[n]])
  }

  /** The structure keeps every other event, in order, has one entry for each stretch of answer pieces, and
      ends in one exactly when the events end in a piece. */
  lemma {:induction false} StructureIsFaithful(names: seq<string>)
    requires DELTAS !in names
    ensures Uncollapsed(Structure(names)) == Others(names) && Collapsed(Structure(names)) == Stretches(names)
    ensures names != [] ==> Structure(names) != [] && EndsLike(Structure(names), names)
  {
    if names != [] {
      var n := |names| - 1;
      var init, name := names[..n], names[n];
      StructureIsFaithful(init);
      assert names == init + [name] && name in names;
      StructureSnoc(names, init, name);
      NamesDiffer();
      OneMoreEntry(Structure(init), if name == DELTA then DELTAS else name);
      assert n > 0 ==> init[n - 1] == names[n - 1];
      assert Others(init) + [] == Others(init);
    }
  }

  /** The structure ends in a collapsed stretch exactly when the events end in a piece. */
  predicate EndsLike(structure: seq<string>, names: seq<string>)
    requires structure != [] && names != []
  {
    structure[|structure| - 1] == if names[|names| - 1] == DELTA then DELTAS else names[|names| - 1]
  }

  lemma NamesDiffer()
    ensures DELTA != DELTAS
  {
    assert |DELTA| < |DELTAS|;
  }

  lemma OneMoreEntry(structure: seq<string>, entry: string)
    ensures Uncollapsed(structure + [entry]) == Uncollapsed(structure) + (if entry == DELTAS then [] else [entry])
    ensures Collapsed(structure + [entry]) == Collapsed(structure) + (if entry == DELTAS then 1 else 0)
  {
    assert (structure + [entry])[..|structure|] == structure;
  }

  function Repeated(pieces: nat): seq<string> {
    seq(pieces, i => DELTA)
  }
}
