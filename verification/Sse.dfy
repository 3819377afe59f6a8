/** The event-stream reader of the TypeScript SDK: an incremental reader with a
    carry-over buffer, the parser of one event block, and the chat stream built on them. */
module Sse {

  import opened Wrappers
  import opened Text

  datatype SseEvent = SseEvent(event: string, data: string)

  const EVENT_FIELD := "event:"
  const DATA_FIELD := "data:"
  const BLANK_LINE := "\n\n"

  // ---------------------------------------------------------- one event block

  /** The lines that survive trimming on the right and dropping empty ones. */
  function CleanLines(raw: seq<string>): (lines: seq<string>)
    ensures forall i :: 0 <= i < |lines| ==> lines[i] != ""
  {
    if raw == [] then []
    else
      var line := TrimEnd(JavaScript, raw[0]);
      (if line == "" then [] else [line]) + CleanLines(raw[1..])
  }

  /** What one line of a block says. */
  datatype Line = Comment | Event(name: string) | Data(value: string) | Unknown

  function ReadLine(line: string): Line {
    if ":" <= line then Comment
    else if EVENT_FIELD <= line then Event(Trim(JavaScript, line[|EVENT_FIELD|..]))
    else if DATA_FIELD <= line then Data(Trim(JavaScript, line[|DATA_FIELD|..]))
    else Unknown
  }

  function ReadLines(lines: seq<string>): (read: seq<Line>)
    ensures |read| == |lines|
    ensures forall i :: 0 <= i < |lines| ==> read[i] == ReadLine(lines[i])
  {
    seq(|lines|, i requires 0 <= i < |lines| => ReadLine(lines[i]))
  }

  /** The value of the last `event:` line, "" when there is none. */
  function EventName(lines: seq<Line>): string {
    if lines == [] then ""
    else
      var last := lines[|lines| - 1];
      if last.Event? then last.name else EventName(lines[..|lines| - 1])
  }

  /** The values of all `data:` lines, in order. */
  function DataValues(lines: seq<Line>): seq<string> {
    if lines == [] then []
    else
      var last := lines[|lines| - 1];
      DataValues(lines[..|lines| - 1]) + (if last.Data? then [last.value] else [])
  }

  function BlockLinesRead(block: string): seq<Line> {
    ReadLines(CleanLines(Split(block, "\n")))
  }

  /** The event a block denotes: it needs a name and at least one data line. */
  function BlockEvent(block: string): Option<SseEvent> {
    var lines := BlockLinesRead(block);
    var name, values := EventName(lines), DataValues(lines);
    if name == "" || values == [] then None else Some(SseEvent(name, Join(values, "\n")))
  }

  /** `parseSSEEvent`. */
  method ParseSseEvent(chunk: string) returns (parsed: Option<SseEvent>)
    ensures parsed == BlockEvent(chunk)
  {
    var lines := CleanLines(Split(chunk, "\n"));
    ghost var read := ReadLines(lines);
    var event := "";
    var data: seq<string> := [];
    for i := 0 to |lines|
      invariant event == EventName(read[..i])
      invariant data == DataValues(read[..i])
    {
      assert read[..i + 1][..i] == read[..i];
      match ReadLine(lines[i])
      case Event(name) => event := name;
      case Data(value) => data := data + [value];
      case _ =>
    }
    assert read[..|lines|] == read;
    if event == "" || |data| == 0 {
      return None;
    }
    return Some(SseEvent(event, Join(data, "\n")));
  }

  // ---------------------------------------------- a block read line by line, as it stands

  /** The trimmed rest of the last line that starts with `event:`, "" when there is none. */
  function LastName(lines: seq<string>): string {
    if lines == [] then ""
    else
      var n := |lines| - 1;
      if "event:" <= lines[n] then Trim(JavaScript, lines[n][6..]) else LastName(lines[..n])
  }

  /** The trimmed rests of all lines that start with `data:`, in order. */
  function AllData(lines: seq<string>): seq<string> {
    if lines == [] then []
    else
      var n := |lines| - 1;
      AllData(lines[..n]) + if "data:" <= lines[n] then [Trim(JavaScript, lines[n][5..])] else []
  }

  lemma {:induction false} CleanLinesSnoc(raw: seq<string>, line: string)
    ensures CleanLines(raw + [line]) ==
      CleanLines(raw) + if TrimEnd(JavaScript, line) == "" then [] else [TrimEnd(JavaScript, line)]
  {
    if raw == [] {
      assert (raw + [line])[1..] == [];
    } else {
      assert (raw + [line])[1..] == raw[1..] + [line];
      CleanLinesSnoc(raw[1..], line);
    }
  }

  lemma ReadLinesSnoc(lines: seq<string>, line: string)
    ensures ReadLines(lines + [line]) == ReadLines(lines) + [ReadLine(line)]
    ensures EventName(ReadLines(lines + [line])) ==
      if ReadLine(line).Event? then ReadLine(line).name else EventName(ReadLines(lines))
    ensures DataValues(ReadLines(lines + [line])) ==
      DataValues(ReadLines(lines)) + if ReadLine(line).Data? then [ReadLine(line).value] else []
  {
    var read := ReadLines(lines);
    assert ReadLines(lines + [line]) == read + [ReadLine(line)];
    assert (read + [ReadLine(line)])[..|read|] == read;
  }

  lemma BlankAt(s: string, n: nat, k: nat)
    requires n <= k < |s| && Blank(JavaScript, s[n..])
    ensures IsSpace(JavaScript, s[k])
  {
    assert s[n..][k - n] == s[k];
  }

  /** A field name that ends in no blank survives trimming the end of its line. */
  lemma FieldSurvives(field: string, line: string)
    requires field != "" && !IsSpace(JavaScript, field[|field| - 1])
    ensures field <= TrimEnd(JavaScript, line) <==> field <= line
  {
    TrimEndSpec(JavaScript, line);
    var t := TrimEnd(JavaScript, line);
    if field <= line && |t| < |field| {
      BlankAt(line, |t|, |field| - 1);
    }
  }

  lemma ReadsAs(line: string)
    ensures ReadLine(line).Event? <==> "event:" <= line
    ensures ReadLine(line).Data? <==> "data:" <= line
    ensures "event:" <= line ==> ReadLine(line).name == Trim(JavaScript, line[6..])
    ensures "data:" <= line ==> ReadLine(line).value == Trim(JavaScript, line[5..])
  {
    if "event:" <= line {
      assert line[0] == 'e';
    } else if "data:" <= line {
      assert line[0] == 'd';
    }
  }

  /** What a line says does not depend on the blanks at its end. */
  lemma LineSays(line: string, field: string, n: nat)
    requires n == |field| > 0 && !IsSpace(JavaScript, field[n - 1])
    ensures field <= TrimEnd(JavaScript, line) <==> field <= line
    ensures field <= line ==> Trim(JavaScript, TrimEnd(JavaScript, line)[n..]) == Trim(JavaScript, line[n..])
  {
    FieldSurvives(field, line);
    TrimEndSpec(JavaScript, line);
    if field <= line {
      TrimOfTrimEnd(JavaScript, line, n);
    }
  }

  /** One more line, as it stands. */
  lemma OneMoreLine(raw: seq<string>, line: string)
    ensures EventName(ReadLines(CleanLines(raw + [line]))) ==
      if "event:" <= line then Trim(JavaScript, line[6..]) else EventName(ReadLines(CleanLines(raw)))
    ensures DataValues(ReadLines(CleanLines(raw + [line]))) ==
      DataValues(ReadLines(CleanLines(raw))) + if "data:" <= line then [Trim(JavaScript, line[5..])] else []
  {
    var t := TrimEnd(JavaScript, line);
    CleanLinesSnoc(raw, line);
    LineSays(line, "event:", 6);
    LineSays(line, "data:", 5);
    ReadsAs(t);
    if t == "" {
      assert CleanLines(raw + [line]) == CleanLines(raw);
    } else {
      ReadLinesSnoc(CleanLines(raw), t);
    }
  }

  lemma RawSnoc(raw: seq<string>, line: string)
    ensures LastName(raw + [line]) == if "event:" <= line then Trim(JavaScript, line[6..]) else LastName(raw)
    ensures AllData(raw + [line]) == AllData(raw) + if "data:" <= line then [Trim(JavaScript, line[5..])] else []
  {
    assert (raw + [line])[..|raw|] == raw;
  }

  predicate SaysTheSame(raw: seq<string>) {
    EventName(ReadLines(CleanLines(raw))) == LastName(raw) && DataValues(ReadLines(CleanLines(raw))) == AllData(raw)
  }

  lemma OneMoreSaysTheSame(raw: seq<string>, line: string)
    requires SaysTheSame(raw)
    ensures SaysTheSame(raw + [line])
  {
    OneMoreLine(raw, line);
    RawSnoc(raw, line);
  }

  lemma {:induction false} CleanedSaysTheSame(raw: seq<string>)
    ensures SaysTheSame(raw)
  {
    if raw != [] {
      var n := |raw| - 1;
      CleanedSaysTheSame(raw[..n]);
      assert raw == raw[..n] + [raw[n]];
      OneMoreSaysTheSame(raw[..n], raw[n]);
    }
  }

  /** A block's event, told by its lines as they stand, without the cleaning: the last name and
      all the data, if there are both. */
  lemma BlockEventByLines(block: string)
    ensures var name, values := LastName(Split(block, "\n")), AllData(Split(block, "\n"));
            BlockEvent(block) == if name == "" || values == [] then None else Some(SseEvent(name, Join(values, "\n")))
  {
    CleanedSaysTheSame(Split(block, "\n"));
  }

  // --------------------------------------------------------- the whole stream

  function EventsOf(blocks: seq<string>): seq<SseEvent> {
    if blocks == [] then []
    else
      var last := BlockEvent(blocks[|blocks| - 1]);
      EventsOf(blocks[..|blocks| - 1]) + (if last.Some? then [last.value] else [])
  }

  lemma {:induction false} EventsOfConcat(a: seq<string>, b: seq<string>)
    ensures EventsOf(a + b) == EventsOf(a) + EventsOf(b)
  {
    if b == [] {
      assert a + b == a;
    } else {
      var init := b[..|b| - 1];
      assert (a + b)[..|a + b| - 1] == a + init;
      EventsOfConcat(a, init);
    }
  }

  /** The reference reading: split the whole text at blank lines, keep the blocks that parse. */
  function EventsOfText(text: string): seq<SseEvent> {
    EventsOf(Split(text, BLANK_LINE))
  }

  function Concat(chunks: seq<string>): string {
    if chunks == [] then "" else Concat(chunks[..|chunks| - 1]) + chunks[|chunks| - 1]
  }

  /** What flushing the decoder adds: a replacement character when the bytes stop
      in the middle of a character, otherwise nothing. */
  function Flushed(truncated: bool): string {
    if truncated then "\U{FFFD}" else ""
  }

  /** The blocks of a text that later text cannot change, and the one it can still extend. */
  function Settled(text: string): seq<string> {
    var parts := Split(text, BLANK_LINE);
    parts[..|parts| - 1]
  }

  function Pending(text: string): string {
    var parts := Split(text, BLANK_LINE);
    parts[|parts| - 1]
  }

  /** One more chunk: only the pending block is split again. */
  lemma FeedChunk(text: string, chunk: string)
    ensures Settled(text + chunk) == Settled(text) + Settled(Pending(text) + chunk)
    ensures Pending(text + chunk) == Pending(Pending(text) + chunk)
    ensures EventsOf(Settled(text + chunk)) == EventsOf(Settled(text)) + EventsOf(Settled(Pending(text) + chunk))
  {
    SplitAppend(text, chunk, BLANK_LINE);
    EventsOfConcat(Settled(text), Settled(Pending(text) + chunk));
  }

  /** Parses each block and hands on the events. */
  method EmitBlocks(blocks: seq<string>) returns (emitted: seq<SseEvent>)
    ensures emitted == EventsOf(blocks)
  {
    emitted := [];
    for j := 0 to |blocks|
      invariant emitted == EventsOf(blocks[..j])
    {
      assert blocks[..j + 1][..j] == blocks[..j];
      var parsed := ParseSseEvent(blocks[j]);
      if parsed.Some? {
        emitted := emitted + [parsed.value];
      }
    }
    assert blocks[..|blocks|] == blocks;
  }

  /** `readSSE`: whatever the chunk boundaries, the emitted events are those of the whole text. */
  method ReadSse(chunks: seq<string>, truncated: bool) returns (emitted: seq<SseEvent>)
    ensures emitted == EventsOfText(Concat(chunks) + Flushed(truncated))
  {
    emitted := [];
    var buffer := "";
    for i := 0 to |chunks|
      invariant emitted == EventsOf(Settled(Concat(chunks[..i])))
      invariant buffer == Pending(Concat(chunks[..i]))
    {
      assert chunks[..i + 1][..i] == chunks[..i];
      FeedChunk(Concat(chunks[..i]), chunks[i]);
      buffer := buffer + chunks[i];
      var parts := Split(buffer, BLANK_LINE);
      var more := EmitBlocks(parts[..|parts| - 1]);
      emitted := emitted + more;
      buffer := parts[|parts| - 1];
    }
    assert chunks[..|chunks|] == chunks;
    LastBlock(Concat(chunks), truncated);
    buffer := buffer + Flushed(truncated);
    if Trim(JavaScript, buffer) != "" {
      var parsed := ParseSseEvent(buffer);
      if parsed.Some? {
        emitted := emitted + [parsed.value];
      }
    } else {
      TrimBlank(JavaScript, buffer);
      BlankBlock(buffer);
    }
  }

  /** At the end the pending block, with what the flush adds, is the only one left to read. */
  lemma LastBlock(text: string, truncated: bool)
    ensures var last := BlockEvent(Pending(text) + Flushed(truncated));
            EventsOfText(text + Flushed(truncated))
            == EventsOf(Settled(text)) + (if last.Some? then [last.value] else [])
  {
    var buffer := Pending(text) + Flushed(truncated);
    SplitAppend(text, Flushed(truncated), BLANK_LINE);
    JoinOfSplit(text, BLANK_LINE);
    FlushKeepsBlock(Pending(text), truncated);
    EventsOfConcat(Settled(text), [buffer]);
    SingleBlock(buffer);
  }

  lemma SingleBlock(block: string)
    ensures EventsOf([block]) == if BlockEvent(block).Some? then [BlockEvent(block).value] else []
  {
    assert [block][..0] == [];
  }

  /** The flushed character cannot complete a blank line. */
  lemma FlushKeepsBlock(buffer: string, truncated: bool)
    requires !Occurs(buffer, BLANK_LINE)
    ensures Split(buffer + Flushed(truncated), BLANK_LINE) == [buffer + Flushed(truncated)]
  {
    var s := buffer + Flushed(truncated);
    var i := IndexFrom(s, BLANK_LINE, 0);
    if i != -1 {
      assert s[i + 1] == s[i..i + 2][1] == '\n';
      assert buffer[i..i + 2] == s[i..i + 2];
      assert OccursAt(buffer, BLANK_LINE, i);
    }
  }

  // ------------------------------------------------------------- blank blocks

  lemma {:induction false} SplitChars(s: string, sep: string)
    requires sep != ""
    ensures forall i, c :: 0 <= i < |Split(s, sep)| && c in Split(s, sep)[i] ==> c in s
    decreases |s|
  {
    var i := IndexFrom(s, sep, 0);
    if i != -1 {
      var rest := s[i + |sep|..];
      SplitChars(rest, sep);
      assert forall c :: c in s[..i] || c in rest ==> c in s;
    }
  }

  lemma {:induction false} BlankLinesVanish(raw: seq<string>)
    requires forall i :: 0 <= i < |raw| ==> Blank(JavaScript, raw[i])
    ensures CleanLines(raw) == []
  {
    if raw != [] {
      TrimEndSpec(JavaScript, raw[0]);
      BlankLinesVanish(raw[1..]);
    }
  }

  /** The reader skips a blank remainder; parsing it would give nothing anyway. */
  lemma BlankBlock(block: string)
    requires Blank(JavaScript, block)
    ensures BlockEvent(block) == None
  {
    var raw := Split(block, "\n");
    SplitChars(block, "\n");
    forall i | 0 <= i < |raw| ensures Blank(JavaScript, raw[i]) {
      forall k | 0 <= k < |raw[i]| ensures IsSpace(JavaScript, raw[i][k]) {
        assert raw[i][k] in block;
      }
    }
    BlankLinesVanish(raw);
  }

  // --------------------------------------------------------------- round trip

  /** The events the wire format can carry. */
  predicate Printable(e: SseEvent) {
    && e.event != "" && Trimmed(JavaScript, e.event) && '\n' !in e.event
    && forall i :: 0 <= i < |Split(e.data, "\n")| ==> Trimmed(JavaScript, Split(e.data, "\n")[i])
  }

  predicate AllPrintable(es: seq<SseEvent>) {
    forall i :: 0 <= i < |es| ==> Printable(es[i])
  }

  function FieldLine(field: string, value: string): string {
    field + (" " + value)
  }

  function DataLines(values: seq<string>): (lines: seq<string>)
    ensures |lines| == |values|
    ensures forall i :: 0 <= i < |lines| ==> lines[i] == FieldLine(DATA_FIELD, values[i])
  {
    seq(|values|, i requires 0 <= i < |values| => FieldLine(DATA_FIELD, values[i]))
  }

  function BlockLines(e: SseEvent): seq<string> {
    [FieldLine(EVENT_FIELD, e.event)] + DataLines(Split(e.data, "\n"))
  }

  function PrintEvent(e: SseEvent): string {
    Join(BlockLines(e), "\n")
  }

  /** One `event:` line, one `data:` line per line of data, one blank line. */
  function Print(es: seq<SseEvent>): string {
    if es == [] then "" else PrintEvent(es[0]) + BLANK_LINE + Print(es[1..])
  }

  /** A space before a trimmed text is trimmed away again. */
  lemma TrimAfterSpace(v: string)
    requires Trimmed(JavaScript, v)
    ensures Trim(JavaScript, " " + v) == v
  {
    TrimStartAfterSpace(v);
    TrimEndOfTrimmed(v);
  }

  lemma TrimStartAfterSpace(v: string)
    requires Trimmed(JavaScript, v)
    ensures TrimStart(JavaScript, " " + v) == v
  {
    var s := " " + v;
    assert IsSpace(JavaScript, s[0]) && s[1..] == v;
  }

  lemma TrimEndOfTrimmed(v: string)
    requires Trimmed(JavaScript, v)
    ensures TrimEnd(JavaScript, v) == v
  {
  }

  /** Trimming a field line on the right changes it only when the value is empty. */
  lemma TrimFieldLine(field: string, value: string)
    requires field != "" && Trimmed(JavaScript, field) && Trimmed(JavaScript, value)
    ensures TrimEnd(JavaScript, FieldLine(field, value)) == if value == "" then field else FieldLine(field, value)
  {
    var line := FieldLine(field, value);
    if value == "" {
      assert line[..|line| - 1] == field;
      assert TrimEnd(JavaScript, line) == TrimEnd(JavaScript, field);
    } else {
      assert line[|line| - 1] == value[|value| - 1];
    }
  }

  lemma FieldsDiffer(rest: string)
    ensures !(":" <= EVENT_FIELD + rest) && !(":" <= DATA_FIELD + rest) && !(EVENT_FIELD <= DATA_FIELD + rest)
  {
    assert (EVENT_FIELD + rest)[0] == 'e' && (DATA_FIELD + rest)[0] == 'd';
  }

  lemma DropField(field: string, rest: string)
    ensures field <= field + rest && (field + rest)[|field|..] == rest
  {
  }

  /** How a printed data line reads back; an empty value loses the space after the colon. */
  lemma ReadDataLine(v: string)
    requires Trimmed(JavaScript, v)
    ensures TrimEnd(JavaScript, FieldLine(DATA_FIELD, v)) != ""
    ensures ReadLine(TrimEnd(JavaScript, FieldLine(DATA_FIELD, v))) == Data(v)
  {
    TrimFieldLine(DATA_FIELD, v);
    var rest := if v == "" then "" else " " + v;
    assert TrimEnd(JavaScript, FieldLine(DATA_FIELD, v)) == DATA_FIELD + rest;
    FieldsDiffer(rest);
    DropField(DATA_FIELD, rest);
    TrimAfterSpace(v);
  }

  lemma ReadEventLine(name: string)
    requires name != "" && Trimmed(JavaScript, name)
    ensures TrimEnd(JavaScript, FieldLine(EVENT_FIELD, name)) == FieldLine(EVENT_FIELD, name) != ""
    ensures ReadLine(FieldLine(EVENT_FIELD, name)) == Event(name)
  {
    TrimFieldLine(EVENT_FIELD, name);
    FieldsDiffer(" " + name);
    DropField(EVENT_FIELD, " " + name);
    TrimAfterSpace(name);
  }

  lemma CleanLinesCons(raw: seq<string>)
    requires raw != [] && TrimEnd(JavaScript, raw[0]) != ""
    ensures CleanLines(raw) == [TrimEnd(JavaScript, raw[0])] + CleanLines(raw[1..])
  {
  }

  predicate Carry(lines: seq<Line>, values: seq<string>) {
    |lines| == |values| && forall i :: 0 <= i < |lines| ==> lines[i] == Data(values[i])
  }

  /** After the event line, data lines only add their values. */
  lemma {:induction false} NameThenData(name: string, lines: seq<Line>, values: seq<string>)
    requires Carry(lines, values)
    ensures EventName([Event(name)] + lines) == name
    ensures DataValues([Event(name)] + lines) == values
    decreases |lines|
  {
    var all := [Event(name)] + lines;
    if lines != [] {
      var n := |lines| - 1;
      NameThenData(name, lines[..n], values[..n]);
      assert all[..|all| - 1] == [Event(name)] + lines[..n];
      assert values == values[..n] + [values[n]];
    }
  }

  /** The cleaned data lines of a printed block still carry the values. */
  lemma {:induction false} CleanDataLines(values: seq<string>)
    requires forall i :: 0 <= i < |values| ==> Trimmed(JavaScript, values[i])
    ensures Carry(ReadLines(CleanLines(DataLines(values))), values)
  {
    if values != [] {
      var lines, rest := DataLines(values), values[1..];
      ReadDataLine(values[0]);
      CleanLinesCons(lines);
      assert lines[1..] == DataLines(rest);
      CleanDataLines(rest);
      ReadLinesCons(TrimEnd(JavaScript, lines[0]), CleanLines(DataLines(rest)));
      CarryCons(values[0], ReadLines(CleanLines(DataLines(rest))), rest);
      assert values == [values[0]] + rest;
    }
  }

  lemma CarryCons(v: string, lines: seq<Line>, values: seq<string>)
    requires Carry(lines, values)
    ensures Carry([Data(v)] + lines, [v] + values)
  {
  }

  lemma ReadLinesCons(line: string, rest: seq<string>)
    ensures ReadLines([line] + rest) == [ReadLine(line)] + ReadLines(rest)
  {
  }

  /** The raw lines of a printed block are the lines it was joined from. */
  lemma PrintedLines(e: SseEvent)
    requires Printable(e)
    ensures Split(PrintEvent(e), "\n") == BlockLines(e)
  {
    SplitCharFree(e.data, '\n');
    SplitOfJoinChar(BlockLines(e), '\n');
  }

  lemma ReadPrintedLines(e: SseEvent)
    requires Printable(e)
    ensures BlockLinesRead(PrintEvent(e))
         == [Event(e.event)] + ReadLines(CleanLines(DataLines(Split(e.data, "\n"))))
  {
    var head, data := FieldLine(EVENT_FIELD, e.event), DataLines(Split(e.data, "\n"));
    PrintedLines(e);
    ReadEventLine(e.event);
    CleanLinesCons(BlockLines(e));
    assert BlockLines(e)[1..] == data;
    ReadLinesCons(head, CleanLines(data));
  }

  lemma ParsePrinted(e: SseEvent)
    requires Printable(e)
    ensures BlockEvent(PrintEvent(e)) == Some(e)
  {
    var values := Split(e.data, "\n");
    ReadPrintedLines(e);
    CleanDataLines(values);
    NameThenData(e.event, ReadLines(CleanLines(DataLines(values))), values);
    JoinOfSplit(e.data, "\n");
  }

  predicate NoGap(s: string) {
    && s != "" && s[0] != '\n' && s[|s| - 1] != '\n'
    && forall i :: 0 <= i < |s| - 1 ==> s[i] != '\n' || s[i + 1] != '\n'
  }

  lemma {:induction false} JoinLeavesNoGap(lines: seq<string>)
    requires lines != []
    requires forall i :: 0 <= i < |lines| ==> lines[i] != "" && '\n' !in lines[i]
    ensures NoGap(Join(lines, "\n"))
  {
    if |lines| > 1 {
      JoinLeavesNoGap(lines[1..]);
    }
  }

  lemma NoGapIsClosed(s: string)
    requires NoGap(s)
    ensures Closed(s, BLANK_LINE)
  {
    var t := s + BLANK_LINE;
    forall i | 0 <= i < |s| ensures !OccursAt(t, BLANK_LINE, i) {
      assert t[i..i + 2] == [t[i], t[i + 1]];
    }
  }

  lemma PrintedIsClosed(e: SseEvent)
    requires Printable(e)
    ensures Closed(PrintEvent(e), BLANK_LINE)
  {
    SplitCharFree(e.data, '\n');
    JoinLeavesNoGap(BlockLines(e));
    NoGapIsClosed(PrintEvent(e));
  }

  lemma {:induction false} ReadPrinted(es: seq<SseEvent>)
    requires AllPrintable(es)
    ensures EventsOfText(Print(es)) == es
  {
    if es == [] {
      BlankBlock("");
      SingleBlock("");
    } else {
      var block, rest := PrintEvent(es[0]), Print(es[1..]);
      ReadPrinted(es[1..]);
      PrintedIsClosed(es[0]);
      SplitClosed(block, BLANK_LINE, rest);
      ParsePrinted(es[0]);
      SingleBlock(block);
      EventsOfConcat([block], Split(rest, BLANK_LINE));
      assert es == [es[0]] + es[1..];
    }
  }

  // Whatever the reader emits can be printed.

  lemma {:induction false} CleanLinesFree(raw: seq<string>)
    requires forall i :: 0 <= i < |raw| ==> '\n' !in raw[i]
    ensures forall i :: 0 <= i < |CleanLines(raw)| ==> '\n' !in CleanLines(raw)[i]
  {
    if raw != [] {
      TrimEndSpec(JavaScript, raw[0]);
      CleanLinesFree(raw[1..]);
    }
  }

  predicate TrimmedLine(line: Line) {
    match line
    case Event(name) => Trimmed(JavaScript, name) && '\n' !in name
    case Data(value) => Trimmed(JavaScript, value) && '\n' !in value
    case _ => true
  }

  lemma LineValueIsTrimmed(line: string)
    requires '\n' !in line
    ensures TrimmedLine(ReadLine(line))
  {
  }

  lemma {:induction false} ValuesAreTrimmed(lines: seq<Line>)
    requires forall i :: 0 <= i < |lines| ==> TrimmedLine(lines[i])
    ensures Trimmed(JavaScript, EventName(lines)) && '\n' !in EventName(lines)
    ensures forall i :: 0 <= i < |DataValues(lines)| ==> TrimmedLine(Data(DataValues(lines)[i]))
  {
    if lines != [] {
      ValuesAreTrimmed(lines[..|lines| - 1]);
    }
  }

  lemma EmittedIsPrintable(block: string)
    ensures BlockEvent(block).Some? ==> Printable(BlockEvent(block).value)
  {
    SplitCharFree(block, '\n');
    var lines := CleanLines(Split(block, "\n"));
    CleanLinesFree(Split(block, "\n"));
    var read := ReadLines(lines);
    forall i | 0 <= i < |read| ensures TrimmedLine(read[i]) {
      LineValueIsTrimmed(lines[i]);
    }
    ValuesAreTrimmed(read);
    if DataValues(read) != [] {
      SplitOfJoinChar(DataValues(read), '\n');
    }
  }

  lemma {:induction false} EmittedArePrintable(blocks: seq<string>)
    ensures AllPrintable(EventsOf(blocks))
  {
    if blocks != [] {
      EmittedArePrintable(blocks[..|blocks| - 1]);
      EmittedIsPrintable(blocks[|blocks| - 1]);
    }
  }

  /** Printing and reading back is the identity on exactly the printable lists. */
  lemma PrintReadRoundTrip(es: seq<SseEvent>)
    ensures EventsOfText(Print(es)) == es <==> AllPrintable(es)
  {
    EmittedArePrintable(Split(Print(es), BLANK_LINE));
    if AllPrintable(es) {
      ReadPrinted(es);
    }
  }

  /** Any text, read and printed, reads as the same events: reading normalises. */
  lemma ReadPrintReadStable(text: string)
    ensures EventsOfText(Print(EventsOfText(text))) == EventsOfText(text)
  {
    EmittedArePrintable(Split(text, BLANK_LINE));
    ReadPrinted(EventsOfText(text));
  }

  // ------------------------------------------------------------- chat streams

  /** What `JSON.parse` does with a text: the value matters only through its truthiness. */
  datatype Parsed = SyntaxError | Json(truthy: bool, text: string)

  /** Which optional handlers the caller supplied; absent ones skip the parse. */
  datatype Handlers = Handlers(onStarted: bool, onDelta: bool)

  datatype StreamError = MalformedJson | TerminalEventMissing

  predicate IsTerminal(e: SseEvent) {
    || e.event == "chat.query.completed"
    || e.event == "chat.query.failed"
    || e.event == "chat.query.cancelled"
  }

  predicate IsParsed(handlers: Handlers, e: SseEvent) {
    || IsTerminal(e)
    || (e.event == "chat.query.started" && handlers.onStarted)
    || (e.event == "chat.query.delta" && handlers.onDelta)
  }

  predicate Malformed(handlers: Handlers, parse: string -> Parsed, es: seq<SseEvent>) {
    exists i :: 0 <= i < |es| && IsParsed(handlers, es[i]) && parse(es[i].data).SyntaxError?
  }

  predicate IsLastTerminal(es: seq<SseEvent>, i: int) {
    0 <= i < |es| && IsTerminal(es[i]) && forall j :: i < j < |es| ==> !IsTerminal(es[j])
  }

  /** The call fails on the first unparsable event it has to parse; otherwise it returns the
      last terminal event, unless there is none or its value is falsy (`null`, `0`, ...). */
  ghost predicate StreamOutcome(es: seq<SseEvent>, handlers: Handlers, parse: string -> Parsed,
                                r: Result<Parsed, StreamError>) {
    if Malformed(handlers, parse, es) then r == Failure(MalformedJson)
    else if i: int :| IsLastTerminal(es, i) then
      var value := parse(es[i].data);
      r == if value.Json? && value.truthy then Success(value) else Failure(TerminalEventMissing)
    else r == Failure(TerminalEventMissing)
  }

  /** `streamChatQuery` after the response has arrived. */
  method StreamChatQuery(chunks: seq<string>, truncated: bool, handlers: Handlers, parse: string -> Parsed)
    returns (r: Result<Parsed, StreamError>)
    ensures StreamOutcome(EventsOfText(Concat(chunks) + Flushed(truncated)), handlers, parse, r)
  {
    var es := ReadSse(chunks, truncated);
    r := HandleEvents(es, handlers, parse);
  }

  method HandleEvents(es: seq<SseEvent>, handlers: Handlers, parse: string -> Parsed)
    returns (r: Result<Parsed, StreamError>)
    ensures StreamOutcome(es, handlers, parse, r)
  {
    var terminal: Option<Parsed> := None;
    ghost var at := -1;
    for i := 0 to |es|
      invariant forall j :: 0 <= j < i && IsParsed(handlers, es[j]) ==> !parse(es[j].data).SyntaxError?
      invariant -1 <= at < i && (terminal == None <==> at == -1)
      invariant at != -1 ==> IsTerminal(es[at]) && terminal == Some(parse(es[at].data))
      invariant forall j :: at < j < i ==> !IsTerminal(es[j])
    {
      var e := es[i];
      var ends := e.event in ["chat.query.completed", "chat.query.failed", "chat.query.cancelled"];
      if ends || (e.event == "chat.query.started" && handlers.onStarted) || (e.event == "chat.query.delta" && handlers.onDelta) {
        var value := parse(e.data);
        if value == SyntaxError {
          return Failure(MalformedJson);
        }
        if ends {
          terminal, at := Some(value), i;
        }
      }
    }
    assert !Malformed(handlers, parse, es);
    if at != -1 {
      assert IsLastTerminal(es, at);
    }
    if terminal == None || !terminal.value.truthy {
      return Failure(TerminalEventMissing);
    }
    return Success(terminal.value);
  }
}
