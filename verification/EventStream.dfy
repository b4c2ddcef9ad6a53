/**
 The wire format of server-sent events: the source's printer, the parser that the WHATWG HTML Living Standard
 gives in sections 9.2.5 "Parsing an event stream" and 9.2.6 "Interpreting an event stream", and the exact
 condition under which the parser undoes the printer.
 */
module EventStream {
  import opened Events
  import opened Sequences
  import opened Text
  import opened Wrappers

  /// Printing

  /** What the single writer loop sends: an event, or the heartbeat comment. */
  datatype Item = Sent(e: Event) | Ping

  const PING := ": ping\n\n"

  function Field(name: string, value: string): string {
    name + ": " + value + "\n"
  }

  /** A field that is printed only when it has a value. */
  function FieldIf(present: bool, name: string, value: string): string {
    if present then Field(name, value) else ""
  }

  function Retry(e: Event): string {
    if e.retry > 0 then Decimal(e.retry) else ""
  }

  function Head(e: Event): string {
    FieldIf(e.id != "", "id", e.id) + FieldIf(e.kind != "", "event", e.kind) + FieldIf(e.retry > 0, "retry", Retry(e))
  }

  function PrintEvent(e: Event): string {
    Head(e) + Field("data", e.data) + "\n"
  }

  /** The printed text, field by field and in this order. */
  lemma PrintedFields(e: Event, name: string, value: string)
    ensures Field(name, value) == name + ": " + value + "\n"
    ensures PrintEvent(e) ==
            (if e.id == "" then "" else Field("id", e.id)) + (if e.kind == "" then "" else Field("event", e.kind))
            + (if e.retry <= 0 then "" else Field("retry", Decimal(e.retry))) + Field("data", e.data) + "\n"
  {
  }

  function PrintItem(item: Item): string {
    match item
    case Sent(e) => PrintEvent(e)
    case Ping => PING
  }

  function Print(items: seq<Item>): string {
    if items == [] then "" else PrintItem(items[0]) + Print(items[1..])
  }

  /** The response body, written by successive formatted prints. */
  class ResponseWriter {
    var body: string

    constructor ()
      ensures body == ""
    {
      body := "";
    }

    method WriteField(name: string, value: string)
      modifies this
      ensures body == old(body) + Field(name, value)
    {
      body := body + (name + ": " + value + "\n");
    }

    method WriteEvent(e: Event)
      modifies this
      ensures body == old(body) + PrintEvent(e)
    {
      ghost var before := body;
      WriteFieldIf(e.id != "", "id", e.id);
      WriteFieldIf(e.kind != "", "event", e.kind);
      WriteFieldIf(e.retry > 0, "retry", Retry(e));
      WriteField("data", e.data);
      body := body + "\n";
      ghost var id, kind := FieldIf(e.id != "", "id", e.id), FieldIf(e.kind != "", "event", e.kind);
      ghost var retry := FieldIf(e.retry > 0, "retry", Retry(e));
      Assoc3(before, id, kind);
      Assoc3(before, id + kind, retry);
      Assoc3(before, Head(e), Field("data", e.data));
      Assoc3(before, Head(e) + Field("data", e.data), "\n");
    }

    method WriteFieldIf(present: bool, name: string, value: string)
      modifies this
      ensures body == old(body) + FieldIf(present, name, value)
    {
      if present {
        WriteField(name, value);
      }
    }

    method WritePing()
      modifies this
      ensures body == old(body) + ": ping\n\n" == old(body) + PING
    {
      body := body + ": ping\n\n";
    }
  }

  /// Parsing (the standard)

  /** A dispatched message: event type, data and last event ID. */
  datatype Message = Message(kind: string, data: string, lastID: string)

  /** The standard's buffers, the reconnection time and the messages dispatched so far. */
  datatype Parser = Parser(data: string, kind: string, idBuffer: string, retry: Option<nat>, out: seq<Message>)

  predicate IsBreak(c: char) {
    c == '\n' || c == '\r'
  }

  /** Where the first line ends: the first CR or LF, or the end of the text. */
  function LineEnd(text: string): (i: nat)
    ensures i <= |text| && (forall j | 0 <= j < i :: !IsBreak(text[j])) && (i < |text| ==> IsBreak(text[i]))
  {
    if text == "" || IsBreak(text[0]) then 0
    else
      var i := LineEnd(text[1..]);
      assert forall j | 0 < j < i + 1 :: text[j] == text[1..][j - 1];
      i + 1
  }

  /** What follows the first line: CR LF counts as one line break. */
  function AfterLine(text: string): string
    requires LineEnd(text) < |text|
  {
    var i := LineEnd(text);
    if text[i] == '\r' && i + 1 < |text| && text[i + 1] == '\n' then text[i + 2..] else text[i + 1..]
  }

  /** Processing line by line; an unterminated last line and a pending event are discarded. */
  function Feed(p: Parser, text: string): Parser
    decreases |text|
  {
    var i := LineEnd(text);
    if i == |text| then p else Feed(Line(p, text[..i]), AfterLine(text))
  }

  function Line(p: Parser, line: string): Parser {
    if line == "" then Dispatch(p)
    else
      var i := IndexOf(line, ':');
      if i == 0 then p
      else if i == |line| then SetField(p, line, "")
      else
        var value := line[i + 1..];
        SetField(p, line[..i], if value != "" && value[0] == ' ' then value[1..] else value)
  }

  function SetField(p: Parser, name: string, value: string): Parser {
    match name
    case "event" => p.(kind := value)
    case "data" => p.(data := p.data + value + "\n")
    case "id" => if '\0' in value then p else p.(idBuffer := value)
    case "retry" => if IsDigits(value) then p.(retry := Some(NatValue(value))) else p
    case _ => p
  }

  function Dispatch(p: Parser): Parser {
    if p.data == "" then p.(kind := "")
    else
      var m := Message(if p.kind == "" then "message" else p.kind, p.data[..|p.data| - 1], p.idBuffer);
      p.(data := "", kind := "", out := p.out + [m])
  }

  const START := Parser("", "", "", None, [])

  function Parse(stream: string): Parser {
    Feed(START, if stream != "" && stream[0] == '\U{FEFF}' then stream[1..] else stream)
  }

  /// What should come out

  /** Reading the items themselves: the last id and the last positive retry stick, an empty type means `message`. */
  function Expect(p: Parser, items: seq<Item>): Parser
    decreases |items|
  {
    if items == [] then p else Expect(ExpectItem(p, items[0]), items[1..])
  }

  function ExpectItem(p: Parser, item: Item): Parser {
    match item
    case Ping => p
    case Sent(e) =>
      var id := if e.id != "" then e.id else p.idBuffer;
      p.(idBuffer := id, retry := if e.retry > 0 then Some(e.retry) else p.retry,
         out := p.out + [Message(if e.kind == "" then "message" else e.kind, e.data, id)])
  }

  predicate NoBreaks(s: string) {
    forall i | 0 <= i < |s| :: !IsBreak(s[i])
  }

  predicate Clean(e: Event) {
    NoBreaks(e.id) && NoBreaks(e.kind) && NoBreaks(e.data) && '\0' !in e.id
  }

  predicate CleanItem(item: Item) {
    item.Sent? ==> Clean(item.e)
  }

  predicate AllClean(items: seq<Item>) {
    forall i | 0 <= i < |items| :: CleanItem(items[i])
  }

  predicate Idle(p: Parser) {
    p.data == "" && p.kind == ""
  }

  /// Feeding in pieces

  lemma LineEndFirst(a: string, b: string)
    requires NoBreaks(a) && b != "" && IsBreak(b[0])
    ensures LineEnd(a + b) == |a|
  {
    var i := LineEnd(a + b);
    assert (a + b)[|a|] == b[0];
  }

  lemma FeedLine(p: Parser, line: string, rest: string)
    requires NoBreaks(line)
    ensures Feed(p, line + "\n" + rest) == Feed(Line(p, line), rest)
  {
    var text := line + "\n" + rest;
    assert text == line + ("\n" + rest);
    LineEndFirst(line, "\n" + rest);
    assert text[..|line|] == line && text[|line| + 1..] == rest;
  }

  lemma FieldLine(p: Parser, name: string, value: string)
    requires name != "" && ':' !in name
    ensures Line(p, name + ": " + value) == SetField(p, name, value)
  {
    var line := name + ": " + value;
    assert line == name + [':'] + (" " + value);
    IndexOfFirst(name, ':', " " + value);
    assert line[|name| + 1..] == " " + value && (" " + value)[1..] == value;
    assert line[..|name|] == name;
  }

  lemma FeedField(p: Parser, name: string, value: string, rest: string)
    requires name != "" && ':' !in name && NoBreaks(name) && NoBreaks(value)
    ensures Feed(p, Field(name, value) + rest) == Feed(SetField(p, name, value), rest)
  {
    var line := name + ": " + value;
    assert Field(name, value) + rest == line + "\n" + rest;
    FeedLine(p, line, rest);
    FieldLine(p, name, value);
  }

  /// A clean event comes back

  lemma FeedFieldIf(p: Parser, present: bool, name: string, value: string, rest: string)
    requires name != "" && ':' !in name && NoBreaks(name) && NoBreaks(value)
    ensures Feed(p, FieldIf(present, name, value) + rest) ==
            Feed(if present then SetField(p, name, value) else p, rest)
  {
    if present {
      FeedField(p, name, value, rest);
    } else {
      assert FieldIf(present, name, value) + rest == rest;
    }
  }

  lemma RetryIsClean(e: Event)
    ensures NoBreaks(Retry(e))
    ensures e.retry > 0 ==> IsDigits(Retry(e)) && NatValue(Retry(e)) == e.retry
  {
    if e.retry > 0 {
      DecimalRoundTrip(e.retry);
      assert forall i | 0 <= i < |Retry(e)| :: IsDigit(Retry(e)[i]);
    }
  }

  /** The parser after the optional fields. */
  function AfterHead(p: Parser, e: Event): Parser {
    p.(idBuffer := if e.id != "" && '\0' !in e.id then e.id else p.idBuffer,
       kind := if e.kind != "" then e.kind else p.kind,
       retry := if e.retry > 0 then Some(e.retry) else p.retry)
  }

  lemma FeedID(p: Parser, e: Event, rest: string)
    requires NoBreaks(e.id)
    ensures Feed(p, FieldIf(e.id != "", "id", e.id) + rest) ==
            Feed(p.(idBuffer := if e.id != "" && '\0' !in e.id then e.id else p.idBuffer), rest)
  {
    FeedFieldIf(p, e.id != "", "id", e.id, rest);
  }

  lemma FeedKind(p: Parser, e: Event, rest: string)
    requires NoBreaks(e.kind)
    ensures Feed(p, FieldIf(e.kind != "", "event", e.kind) + rest) ==
            Feed(p.(kind := if e.kind != "" then e.kind else p.kind), rest)
  {
    FeedFieldIf(p, e.kind != "", "event", e.kind, rest);
  }

  lemma FeedRetry(p: Parser, e: Event, rest: string)
    ensures Feed(p, FieldIf(e.retry > 0, "retry", Retry(e)) + rest) ==
            Feed(p.(retry := if e.retry > 0 then Some(e.retry) else p.retry), rest)
  {
    RetryIsClean(e);
    FeedFieldIf(p, e.retry > 0, "retry", Retry(e), rest);
  }

  lemma FeedHead(p: Parser, e: Event, rest: string)
    requires NoBreaks(e.id) && NoBreaks(e.kind)
    ensures Feed(p, Head(e) + rest) == Feed(AfterHead(p, e), rest)
  {
    var a := FieldIf(e.id != "", "id", e.id);
    var b := FieldIf(e.kind != "", "event", e.kind);
    var c := FieldIf(e.retry > 0, "retry", Retry(e));
    Assoc4(a, b, c, rest);
    FeedID(p, e, b + (c + rest));
    var p1 := p.(idBuffer := if e.id != "" && '\0' !in e.id then e.id else p.idBuffer);
    FeedKind(p1, e, c + rest);
    FeedRetry(p1.(kind := if e.kind != "" then e.kind else p.kind), e, rest);
  }

  lemma FeedData(p: Parser, value: string, rest: string)
    requires NoBreaks(value)
    ensures Feed(p, Field("data", value) + rest) == Feed(p.(data := p.data + value + "\n"), rest)
  {
    FeedField(p, "data", value, rest);
  }

  lemma FeedBlank(p: Parser, rest: string)
    ensures Feed(p, "\n" + rest) == Feed(Dispatch(p), rest)
  {
    assert "" + "\n" + rest == "\n" + rest;
    FeedLine(p, "", rest);
  }

  lemma TrimBreak(empty: string, value: string)
    requires empty == ""
    ensures var data := empty + value + "\n"; data != "" && data[..|data| - 1] == value
  {
  }

  lemma FeedCleanEvent(p: Parser, e: Event, rest: string)
    requires Idle(p) && Clean(e)
    ensures Feed(p, PrintEvent(e) + rest) == Feed(ExpectItem(p, Sent(e)), rest)
  {
    var tail := Field("data", e.data) + ("\n" + rest);
    Assoc4(Head(e), Field("data", e.data), "\n", rest);
    FeedHead(p, e, tail);
    var q := AfterHead(p, e);
    FeedData(q, e.data, "\n" + rest);
    TrimBreak(p.data, e.data);
    FeedBlank(q.(data := q.data + e.data + "\n"), rest);
  }

  lemma FeedPing(p: Parser, rest: string)
    requires Idle(p)
    ensures Feed(p, PING + rest) == Feed(p, rest)
  {
    assert PING + rest == ": ping" + "\n" + ("\n" + rest);
    FeedLine(p, ": ping", "\n" + rest);
    FeedBlank(p, rest);
  }

  lemma {:induction false} FeedClean(p: Parser, items: seq<Item>, rest: string)
    requires Idle(p) && AllClean(items)
    ensures Feed(p, Print(items) + rest) == Feed(Expect(p, items), rest) && Idle(Expect(p, items))
    decreases |items|
  {
    if items == [] {
      assert "" + rest == rest;
    } else {
      var more := Print(items[1..]) + rest;
      assert Print(items) + rest == PrintItem(items[0]) + more;
      FeedCleanItem(p, items[0], more);
      FeedClean(ExpectItem(p, items[0]), items[1..], rest);
    }
  }

  /// An event that is not clean does not come back

  /** What the parser can hold and dispatch at all. */
  predicate Plausible(m: Message) {
    NoBreaks(m.kind) && NoBreaks(m.lastID) && '\0' !in m.lastID && '\r' !in m.data
  }

  ghost predicate PlausibleParser(p: Parser) {
    && NoBreaks(p.kind) && NoBreaks(p.idBuffer) && '\0' !in p.idBuffer && '\r' !in p.data
    && forall i | 0 <= i < |p.out| :: Plausible(p.out[i])
  }

  lemma LineKeepsPlausible(p: Parser, line: string)
    requires PlausibleParser(p) && NoBreaks(line)
    ensures PlausibleParser(Line(p, line)) && p.out <= Line(p, line).out
  {
    if line != "" {
      var i := IndexOf(line, ':');
      var value := if i >= |line| - 1 then "" else line[i + 1..];
      var trimmed := if value != "" && value[0] == ' ' then value[1..] else value;
      assert NoBreaks(trimmed);
      SetFieldKeepsPlausible(p, line[..i], trimmed);
      assert i == |line| ==> line[..i] == line;
    }
  }

  lemma SetFieldKeepsPlausible(p: Parser, name: string, value: string)
    requires PlausibleParser(p) && NoBreaks(value)
    ensures PlausibleParser(SetField(p, name, value)) && p.out == SetField(p, name, value).out
  {
    assert '\r' !in p.data + value + "\n";
  }

  lemma {:induction false} FeedKeepsPlausible(p: Parser, text: string)
    requires PlausibleParser(p)
    ensures PlausibleParser(Feed(p, text)) && p.out <= Feed(p, text).out
    decreases |text|
  {
    var i := LineEnd(text);
    if i < |text| {
      LineKeepsPlausible(p, text[..i]);
      FeedKeepsPlausible(Line(p, text[..i]), AfterLine(text));
    }
  }

  lemma SetFieldGrowth(p: Parser, name: string, value: string)
    ensures SetField(p, name, value).out == p.out
    ensures |p.data| <= |SetField(p, name, value).data| <= |p.data| + |name| + |value|
  {
    if name == "data" {
      assert |name| == 4;
    }
  }

  lemma LineGrowth(p: Parser, line: string)
    requires line != ""
    ensures Line(p, line).out == p.out && |p.data| <= |Line(p, line).data| <= |p.data| + |line|
  {
    var i := IndexOf(line, ':');
    if i == |line| {
      SetFieldGrowth(p, line, "");
    } else {
      var value := line[i + 1..];
      SetFieldGrowth(p, line[..i], if value != "" && value[0] == ' ' then value[1..] else value);
    }
  }

  lemma DispatchLength(p: Parser, rest: string)
    requires PlausibleParser(p) && p.data != ""
    ensures var q := Feed(p, "\n" + rest);
            |q.out| > |p.out| && |q.out[|p.out|].data| + 1 == |p.data|
  {
    FeedBlank(p, rest);
    LineKeepsPlausible(p, "");
    FeedKeepsPlausible(Dispatch(p), rest);
  }

  /** Inside an event, the text `d` up to the blank line adds fewer characters of data than it has itself. */
  lemma {:induction false} FirstDispatchIsShort(p: Parser, d: string, rest: string)
    requires PlausibleParser(p) && p.data != "" && '\r' !in d
    ensures var q := Feed(p, d + ("\n\n" + rest));
            |q.out| > |p.out| && |q.out[|p.out|].data| + 1 <= |p.data| + |d|
    decreases |d|
  {
    var k := IndexOf(d, '\n');
    var line := d[..k];
    var more := if k == |d| then "\n" + rest else d[k + 1..] + ("\n\n" + rest);
    SplitFirstLine(d, k, rest);
    assert NoBreaks(line);
    if line == "" {
      assert "" + "\n" + more == "\n" + more;
      DispatchLength(p, more);
    } else {
      FeedLine(p, line, more);
      LineGrowth(p, line);
      LineKeepsPlausible(p, line);
      if k == |d| {
        DispatchLength(Line(p, line), rest);
      } else {
        FirstDispatchIsShort(Line(p, line), d[k + 1..], rest);
      }
    }
  }

  lemma SplitFirstLine(d: string, k: nat, rest: string)
    requires k <= |d| && (k < |d| ==> d[k] == '\n')
    ensures d + ("\n\n" + rest) ==
            d[..k] + "\n" + (if k == |d| then "\n" + rest else d[k + 1..] + ("\n\n" + rest))
  {
    if k == |d| {
      assert d[..k] == d;
    } else {
      assert d == d[..k] + "\n" + d[k + 1..];
    }
  }

  lemma DirtyDataIsCut(p: Parser, e: Event, rest: string)
    requires PlausibleParser(p) && Idle(p) && NoBreaks(e.id) && NoBreaks(e.kind)
    requires '\r' !in e.data && '\n' in e.data
    ensures var q := Feed(p, PrintEvent(e) + rest);
            |q.out| > |p.out| && |q.out[|p.out|].data| < |e.data|
  {
    var k := IndexOf(e.data, '\n');
    assert e.data == e.data[..k] + "\n" + e.data[k + 1..];
    DataText(e, k, rest);
    FeedHead(p, e, Field("data", e.data[..k]) + (e.data[k + 1..] + ("\n\n" + rest)));
    var q := AfterHead(p, e);
    FeedData(q, e.data[..k], e.data[k + 1..] + ("\n\n" + rest));
    var r := q.(data := q.data + e.data[..k] + "\n");
    FirstDispatchIsShort(r, e.data[k + 1..], rest);
  }

  lemma DataText(e: Event, k: nat, rest: string)
    requires k < |e.data| && e.data[k] == '\n'
    ensures PrintEvent(e) + rest ==
            Head(e) + (Field("data", e.data[..k]) + (e.data[k + 1..] + ("\n\n" + rest)))
  {
    var a, b := e.data[..k], e.data[k + 1..];
    assert e.data == a + "\n" + b;
    Assoc4(Head(e), Field("data", e.data), "\n", rest);
    BrokenField("data", a, b);
    Assoc4(Field("data", a), b + "\n", "\n", rest);
    Reassociate(Field("data", a), b, rest);
  }

  lemma BrokenField(name: string, a: string, b: string)
    ensures Field(name, a + "\n" + b) == Field(name, a) + (b + "\n")
  {
  }

  lemma Reassociate(a: string, b: string, rest: string)
    ensures a + (b + "\n") + ("\n" + rest) == a + (b + ("\n\n" + rest))
  {
  }

  lemma {:induction false} ExpectGrows(p: Parser, items: seq<Item>)
    ensures p.out <= Expect(p, items).out
    decreases |items|
  {
    if items != [] {
      ExpectGrows(ExpectItem(p, items[0]), items[1..]);
    }
  }

  lemma DirtyEventIsLost(p: Parser, e: Event, items: seq<Item>, rest: string)
    requires PlausibleParser(p) && Idle(p) && !Clean(e)
    ensures Feed(p, PrintEvent(e) + rest).out != Expect(ExpectItem(p, Sent(e)), items).out
  {
    var n := |p.out|;
    var got, want := Feed(p, PrintEvent(e) + rest).out, Expect(ExpectItem(p, Sent(e)), items).out;
    ExpectGrows(ExpectItem(p, Sent(e)), items);
    FeedKeepsPlausible(p, PrintEvent(e) + rest);
    if got == want {
      assert Plausible(got[n]);
      assert NoBreaks(e.id) && '\0' !in e.id && NoBreaks(e.kind) && '\r' !in e.data;
      DirtyDataIsCut(p, e, rest);
    }
  }

  lemma ExpectKeepsPlausible(p: Parser, item: Item)
    requires PlausibleParser(p) && Idle(p) && CleanItem(item)
    ensures PlausibleParser(ExpectItem(p, item)) && Idle(ExpectItem(p, item))
  {
  }

  lemma FeedCleanItem(p: Parser, item: Item, rest: string)
    requires Idle(p) && CleanItem(item)
    ensures Feed(p, PrintItem(item) + rest) == Feed(ExpectItem(p, item), rest) && Idle(ExpectItem(p, item))
  {
    match item
    case Sent(e) => FeedCleanEvent(p, e, rest);
    case Ping => FeedPing(p, rest);
  }

  lemma {:induction false} DirtyIsLost(p: Parser, items: seq<Item>, dirty: nat)
    requires PlausibleParser(p) && Idle(p)
    requires dirty < |items| && !CleanItem(items[dirty])
    ensures Feed(p, Print(items)).out != Expect(p, items).out
    decreases |items|
  {
    var rest := Print(items[1..]);
    if CleanItem(items[0]) {
      FeedCleanItem(p, items[0], rest);
      ExpectKeepsPlausible(p, items[0]);
      DirtyIsLost(ExpectItem(p, items[0]), items[1..], dirty - 1);
    } else {
      DirtyEventIsLost(p, items[0].e, items[1..], rest);
    }
  }

  /// The theorem

  lemma PrintHasNoBOM(items: seq<Item>)
    ensures Print(items) != "" ==> Print(items)[0] != '\U{FEFF}'
  {
  }

  /** What a client that reads the printed items dispatches. */
  function Received(items: seq<Item>): seq<Message> {
    Parse(Print(items)).out
  }

  /** What it should dispatch. */
  function Meant(items: seq<Item>): seq<Message> {
    Expect(START, items).out
  }

  /**
   Whatever is printed, the standard's parser dispatches exactly the printed events in order, last ids and
   default types included, if and only if no id, type or data holds a line break and no id holds a NUL.
   */
  lemma RoundTripIff(items: seq<Item>)
    ensures Received(items) == Meant(items) <==> AllClean(items)
  {
    PrintHasNoBOM(items);
    if AllClean(items) {
      RoundTrip(items, Print(items));
    } else {
      var dirty :| 0 <= dirty < |items| && !CleanItem(items[dirty]);
      DirtyIsLost(START, items, dirty);
    }
  }

  /** For clean events nothing is left over either: buffers, sticky id and reconnection time are as expected. */
  lemma RoundTrip(items: seq<Item>, stream: string)
    requires AllClean(items) && stream == Print(items)
    ensures Parse(stream) == Expect(START, items)
  {
    PrintHasNoBOM(items);
    FeedClean(START, items, "");
    assert Print(items) + "" == Print(items);
  }
}
