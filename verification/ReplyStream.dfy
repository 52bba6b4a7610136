/**
 * One reply of the fake model in three protocols: as a complete body, and as a stream
 * of events that a client puts together again.
 */
module ReplyStream {
  import opened Options

  /** A tool call with its arguments already encoded. */
  datatype Call = Call(id: string, name: string, arguments: string)

  datatype Reply = Reply(text: string, calls: seq<Call>)

  datatype Block = TextBlock(text: string) | ToolBlock(id: string, name: string, input: string)

  datatype ChatCall = ChatCall(index: nat, id: string, name: string, arguments: string)

  datatype OutputItem = MessageItem(text: string) | FunctionItem(callId: string, name: string, arguments: string)

  datatype Payload =
    // Anthropic messages
    | MessageStart
    | BlockStart(index: nat, block: Block)
    | TextPart(index: nat, text: string)
    | JsonPart(index: nat, json: string)
    | BlockStop(index: nat)
    | MessageDelta(stopReason: string)
    | MessageStop
    // OpenAI chat
    | ChatChunk(content: string, calls: seq<ChatCall>, finish: Option<string>)
    | DoneMark
    // OpenAI responses
    | ItemAdded(number: nat, index: nat, item: OutputItem)
    | ItemText(number: nat, index: nat, text: string)
    | ItemTextDone(number: nat, index: nat, text: string)
    | ItemDone(number: nat, index: nat, item: OutputItem)
    | Completed(number: nat, output: seq<OutputItem>)

  /** `content` marks the one event after which a stream is held or cut. */
  datatype Event = Event(payload: Payload, content: bool)

  // ---------------------------------------------------------------- complete bodies

  predicate IncludesText(reply: Reply) {
    reply.text != "" || reply.calls == []
  }

  function ToolBlocks(calls: seq<Call>): (r: seq<Block>)
    ensures |r| == |calls|
  {
    seq(|calls|, i requires 0 <= i < |calls| => ToolBlock(calls[i].id, calls[i].name, calls[i].arguments))
  }

  /** `anthropicContent` */
  function AnthropicContent(reply: Reply): seq<Block> {
    (if IncludesText(reply) then [TextBlock(reply.text)] else []) + ToolBlocks(reply.calls)
  }

  function AnthropicStop(reply: Reply): string {
    if reply.calls != [] then "tool_use" else "end_turn"
  }

  /** `chatToolCalls` */
  function ChatCalls(calls: seq<Call>): (r: seq<ChatCall>)
    ensures |r| == |calls|
  {
    seq(|calls|, i requires 0 <= i < |calls| => ChatCall(i, calls[i].id, calls[i].name, calls[i].arguments))
  }

  /** `chatContent`: no content at all rather than an empty text beside tool calls. */
  function ChatContent(reply: Reply): Option<string> {
    if reply.text == "" && reply.calls != [] then None else Some(reply.text)
  }

  function ChatFinish(reply: Reply): string {
    if reply.calls != [] then "tool_calls" else "stop"
  }

  function FunctionItems(calls: seq<Call>): (r: seq<OutputItem>)
    ensures |r| == |calls|
  {
    seq(|calls|, i requires 0 <= i < |calls| => FunctionItem(calls[i].id, calls[i].name, calls[i].arguments))
  }

  /** `responseOutput` */
  function ResponseOutput(reply: Reply): seq<OutputItem> {
    (if IncludesText(reply) then [MessageItem(reply.text)] else []) + FunctionItems(reply.calls)
  }

  // ---------------------------------------------------------------- the writer

  /** An event to be written, and whether it carries content. */
  datatype Entry = Entry(payload: Payload, carries: bool)

  function AnyCarries(entries: seq<Entry>): bool {
    entries != [] && (entries[|entries| - 1].carries || AnyCarries(entries[..|entries| - 1]))
  }

  /** The events for some entries: the first that carries content is the marked one. */
  function Written(entries: seq<Entry>): (events: seq<Event>)
    ensures |events| == |entries|
  {
    if entries == [] then []
    else
      var (before, last) := (entries[..|entries| - 1], entries[|entries| - 1]);
      Written(before) + [Event(last.payload, last.carries && !AnyCarries(before))]
  }

  predicate Encodable(entries: seq<Entry>, test: Payload -> bool) {
    entries == [] || (Encodable(entries[..|entries| - 1], test) && test(entries[|entries| - 1].payload))
  }

  class EventWriter {
    /** Whether a payload can be encoded at all. */
    const encodable: Payload -> bool
    var events: seq<Event>
    var marked: bool
    var sequence: nat
    var failed: bool
    ghost var entries: seq<Entry>

    constructor (encodable: Payload -> bool)
      ensures Valid() && entries == [] && sequence == 0 && !failed && this.encodable == encodable
    {
      this.encodable := encodable;
      events, marked, sequence, failed, entries := [], false, 0, false, [];
    }

    /** Unless encoding has failed, the events are those of all entries so far. */
    ghost predicate Valid()
      reads this
    {
      && (failed <==> !Encodable(entries, encodable))
      && (!failed ==> events == Written(entries) && marked == AnyCarries(entries))
    }

    /** `add` */
    method Add(payload: Payload, carries: bool)
      requires Valid()
      modifies this
      ensures Valid() && entries == old(entries) + [Entry(payload, carries)] && sequence == old(sequence)
    {
      entries := entries + [Entry(payload, carries)];
      assert entries[..|entries| - 1] == old(entries);
      if failed {
        return;
      }
      if !encodable(payload) {
        failed := true;
        return;
      }
      var content := carries && !marked;
      if content {
        marked := true;
      }
      events := events + [Event(payload, content)];
    }

    /** `nextSequence` */
    method NextSequence() returns (n: nat)
      requires Valid()
      modifies this`sequence
      ensures Valid() && n == old(sequence) && sequence == n + 1
    {
      n := sequence;
      sequence := sequence + 1;
    }
  }

  // ---------------------------------------------------------------- Anthropic

  function Opening(b: Block): Block {
    match b
    case TextBlock(_) => TextBlock("")
    case ToolBlock(id, name, _) => ToolBlock(id, name, "{}")
  }

  function Part(index: nat, b: Block): Payload {
    match b
    case TextBlock(text) => TextPart(index, text)
    case ToolBlock(_, _, input) => JsonPart(index, input)
  }

  function BlockEntries(index: nat, b: Block): seq<Entry> {
    [Entry(BlockStart(index, Opening(b)), false), Entry(Part(index, b), true), Entry(BlockStop(index), false)]
  }

  function BlocksEntries(blocks: seq<Block>): seq<Entry> {
    if blocks == [] then []
    else BlocksEntries(blocks[..|blocks| - 1]) + BlockEntries(|blocks| - 1, blocks[|blocks| - 1])
  }

  function AnthropicEntries(reply: Reply): seq<Entry> {
    [Entry(MessageStart, false)] + BlocksEntries(AnthropicContent(reply))
    + [Entry(MessageDelta(AnthropicStop(reply)), false), Entry(MessageStop, false)]
  }

  lemma BlocksEntriesExtended(blocks: seq<Block>, i: nat)
    requires i < |blocks|
    ensures BlocksEntries(blocks[..i + 1]) == BlocksEntries(blocks[..i]) + BlockEntries(i, blocks[i])
  {
    assert blocks[..i + 1][..i] == blocks[..i];
  }

  /** `anthropicBlock` */
  method AnthropicBlock(out: EventWriter, index: nat, b: Block)
    requires out.Valid()
    modifies out
    ensures out.Valid() && out.entries == old(out.entries) + BlockEntries(index, b) && out.sequence == old(out.sequence)
  {
    out.Add(BlockStart(index, Opening(b)), false);
    out.Add(Part(index, b), true);
    out.Add(BlockStop(index), false);
  }

  lemma ContentParts(reply: Reply)
    ensures var content := AnthropicContent(reply);
            if IncludesText(reply)
            then content != [] && content[0] == TextBlock(reply.text) && content[1..] == ToolBlocks(reply.calls)
            else content == ToolBlocks(reply.calls) && content[0..] == content
  {
  }

  /** `anthropicStream` */
  method AnthropicStream(out: EventWriter, reply: Reply)
    requires out.Valid() && out.entries == []
    modifies out
    ensures out.Valid() && out.entries == AnthropicEntries(reply)
  {
    ghost var content := AnthropicContent(reply);
    ContentParts(reply);
    out.Add(MessageStart, false);
    ghost var start := out.entries;
    var index := AnthropicFirst(out, reply, start, content);
    AnthropicCalls(out, index, reply.calls, start, content);
    assert content[..|content|] == content;
    out.Add(MessageDelta(AnthropicStop(reply)), false);
    out.Add(MessageStop, false);
  }

  /** The text block of `anthropicStream`, if there is one. */
  method AnthropicFirst(out: EventWriter, reply: Reply, ghost start: seq<Entry>, ghost content: seq<Block>) returns (index: nat)
    requires out.Valid() && out.entries == start && content == AnthropicContent(reply)
    modifies out
    ensures out.Valid() && index <= |content| && content[index..] == ToolBlocks(reply.calls)
    ensures out.entries == start + BlocksEntries(content[..index])
  {
    ContentParts(reply);
    index := 0;
    assert start + BlocksEntries(content[..0]) == start;
    if IncludesText(reply) {
      BlocksEntriesExtended(content, 0);
      AnthropicBlock(out, index, TextBlock(reply.text));
      index := 1;
    }
  }

  /** The loop of `anthropicStream` */
  method AnthropicCalls(out: EventWriter, first: nat, calls: seq<Call>, ghost start: seq<Entry>, ghost content: seq<Block>)
    requires out.Valid() && first <= |content| && content[first..] == ToolBlocks(calls)
    requires out.entries == start + BlocksEntries(content[..first])
    modifies out
    ensures out.Valid() && out.entries == start + BlocksEntries(content[..|content|])
  {
    var index := first;
    for i := 0 to |calls|
      invariant index == first + i && out.Valid()
      invariant out.entries == start + BlocksEntries(content[..index])
    {
      assert content[index] == content[first..][i];
      BlocksEntriesExtended(content, index);
      AnthropicBlock(out, index, ToolBlock(calls[i].id, calls[i].name, calls[i].arguments));
      index := index + 1;
    }
  }

  // ---------------------------------------------------------------- OpenAI chat

  function ChatEntries(reply: Reply): seq<Entry> {
    [Entry(ChatChunk(reply.text, ChatCalls(reply.calls), None), true),
     Entry(ChatChunk("", [], Some(ChatFinish(reply))), false),
     Entry(DoneMark, false)]
  }

  /** `chatStream` */
  method ChatStream(out: EventWriter, reply: Reply)
    requires out.Valid() && out.entries == []
    modifies out
    ensures out.Valid() && out.entries == ChatEntries(reply)
  {
    out.Add(ChatChunk(reply.text, ChatCalls(reply.calls), None), true);
    out.Add(ChatChunk("", [], Some(ChatFinish(reply))), false);
    out.Add(DoneMark, false);
  }

  // ---------------------------------------------------------------- OpenAI responses

  function ItemEntries(number: nat, index: nat, item: OutputItem): seq<Entry> {
    match item
    case MessageItem(text) =>
      [Entry(ItemAdded(number, index, item), true), Entry(ItemText(number + 1, index, text), false),
       Entry(ItemTextDone(number + 2, index, text), false), Entry(ItemDone(number + 3, index, item), false)]
    case FunctionItem(_, _, _) =>
      [Entry(ItemAdded(number, index, item), true), Entry(ItemDone(number + 1, index, item), false)]
  }

  function ItemsEntries(items: seq<OutputItem>): seq<Entry> {
    if items == [] then []
    else
      var before := ItemsEntries(items[..|items| - 1]);
      before + ItemEntries(|before|, |items| - 1, items[|items| - 1])
  }

  function ResponsesEntries(reply: Reply): seq<Entry> {
    var items := ItemsEntries(ResponseOutput(reply));
    items + [Entry(Completed(|items|, ResponseOutput(reply)), false)]
  }

  lemma ItemsEntriesExtended(items: seq<OutputItem>, i: nat)
    requires i < |items|
    ensures var before := ItemsEntries(items[..i]);
            ItemsEntries(items[..i + 1]) == before + ItemEntries(|before|, i, items[i])
  {
    assert items[..i + 1][..i] == items[..i];
  }

  /** One item of `responsesStream` */
  method ResponsesItem(out: EventWriter, index: nat, item: OutputItem)
    requires out.Valid() && out.sequence == |out.entries|
    modifies out
    ensures out.Valid() && out.sequence == |out.entries|
    ensures out.entries == old(out.entries) + ItemEntries(|old(out.entries)|, index, item)
  {
    var n := out.NextSequence();
    out.Add(ItemAdded(n, index, item), true);
    if item.MessageItem? {
      n := out.NextSequence();
      out.Add(ItemText(n, index, item.text), false);
      n := out.NextSequence();
      out.Add(ItemTextDone(n, index, item.text), false);
    }
    n := out.NextSequence();
    out.Add(ItemDone(n, index, item), false);
  }

  lemma OutputParts(reply: Reply)
    ensures var output := ResponseOutput(reply);
            if IncludesText(reply)
            then output != [] && output[0] == MessageItem(reply.text) && output[1..] == FunctionItems(reply.calls)
            else output == FunctionItems(reply.calls) && output[0..] == output
  {
  }

  /** `responsesStream` */
  method ResponsesStream(out: EventWriter, reply: Reply)
    requires out.Valid() && out.entries == [] && out.sequence == 0
    modifies out
    ensures out.Valid() && out.entries == ResponsesEntries(reply)
  {
    ghost var output := ResponseOutput(reply);
    OutputParts(reply);
    var index := 0;
    assert ItemsEntries(output[..0]) == [];
    if IncludesText(reply) {
      ItemsEntriesExtended(output, 0);
      ResponsesItem(out, index, MessageItem(reply.text));
      index := 1;
    }
    ResponsesCalls(out, index, reply.calls, output);
    assert output[..|output|] == output;
    var n := out.NextSequence();
    out.Add(Completed(n, ResponseOutput(reply)), false);
  }

  /** The loop of `responsesStream` */
  method ResponsesCalls(out: EventWriter, first: nat, calls: seq<Call>, ghost output: seq<OutputItem>)
    requires out.Valid() && first <= |output| && output[first..] == FunctionItems(calls)
    requires out.entries == ItemsEntries(output[..first]) && out.sequence == |out.entries|
    modifies out
    ensures out.Valid() && out.entries == ItemsEntries(output[..|output|]) && out.sequence == |out.entries|
  {
    var index := first;
    for i := 0 to |calls|
      invariant index == first + i && out.Valid() && out.sequence == |out.entries|
      invariant out.entries == ItemsEntries(output[..index])
    {
      assert output[index] == output[first..][i];
      ItemsEntriesExtended(output, index);
      ResponsesItem(out, index, FunctionItem(calls[i].id, calls[i].name, calls[i].arguments));
      index := index + 1;
    }
  }

  // ---------------------------------------------------------------- what the writer guarantees

  function Payloads(events: seq<Event>): (r: seq<Payload>)
    ensures |r| == |events| && forall i :: 0 <= i < |r| ==> r[i] == events[i].payload
  {
    seq(|events|, i requires 0 <= i < |events| => events[i].payload)
  }

  /** Nothing is lost or reordered, and exactly one event is marked if any entry carries content: the first that does. */
  lemma {:induction false} WrittenIsFaithful(entries: seq<Entry>, n: nat)
    requires n < |entries|
    ensures Written(entries)[n].payload == entries[n].payload
    ensures Written(entries)[n].content <==> entries[n].carries && !AnyCarries(entries[..n])
  {
    var init := entries[..|entries| - 1];
    if n < |init| {
      WrittenIsFaithful(init, n);
      assert init[..n] == entries[..n];
    }
  }

  lemma {:induction false} FirstCarrier(entries: seq<Entry>) returns (m: nat)
    requires AnyCarries(entries)
    ensures m < |entries| && entries[m].carries && !AnyCarries(entries[..m])
  {
    var init := entries[..|entries| - 1];
    if AnyCarries(init) {
      m := FirstCarrier(init);
      assert init[..m] == entries[..m];
    } else {
      m := |init|;
    }
  }

  lemma {:induction false} CarriesLater(entries: seq<Entry>, m: nat, n: nat)
    requires m < n <= |entries| && entries[m].carries
    ensures AnyCarries(entries[..n])
  {
    assert entries[..n][..n - 1] == entries[..n - 1];
    if m < n - 1 {
      CarriesLater(entries, m, n - 1);
    }
  }

  /** Exactly one event is the content mark. */
  ghost predicate MarkedOnce(events: seq<Event>) {
    exists m :: 0 <= m < |events| && events[m].content && forall i :: 0 <= i < |events| && i != m ==> !events[i].content
  }

  lemma OneMark(entries: seq<Entry>)
    requires AnyCarries(entries)
    ensures MarkedOnce(Written(entries))
  {
    var m := FirstCarrier(entries);
    var events := Written(entries);
    forall i | 0 <= i < |events| ensures events[i].content <==> i == m {
      WrittenIsFaithful(entries, i);
      if m < i {
        CarriesLater(entries, m, i);
      } else if i < m && entries[i].carries {
        CarriesLater(entries, i, m);
      }
    }
    assert events[m].content;
  }

  lemma CarriesIfMember(entries: seq<Entry>, m: nat)
    requires m < |entries| && entries[m].carries
    ensures AnyCarries(entries)
  {
    CarriesLater(entries, m, |entries|);
    assert entries[..|entries|] == entries;
  }

  lemma PayloadsWritten(entries: seq<Entry>)
    ensures Payloads(Written(entries)) == Bare(entries)
  {
    forall n | 0 <= n < |entries| ensures Payloads(Written(entries))[n] == Bare(entries)[n] {
      WrittenIsFaithful(entries, n);
    }
  }

  function Bare(entries: seq<Entry>): (r: seq<Payload>)
    ensures |r| == |entries| && forall i :: 0 <= i < |r| ==> r[i] == entries[i].payload
  {
    seq(|entries|, i requires 0 <= i < |entries| => entries[i].payload)
  }

  lemma BareAppends(a: seq<Entry>, b: seq<Entry>)
    ensures Bare(a + b) == Bare(a) + Bare(b)
  {
  }

  // ---------------------------------------------------------------- sending

  datatype Sent = Finished | Dropped | Canceled

  /**
   * `writeEvents`; `ok` says of each write whether it works, and `resumes` what a hold ends
   * with. A stream that is written to its end has been held exactly as often as it was
   * meant to be: once, or not at all.
   */
  method WriteEvents(
    events: seq<Event>, disconnect: bool, hold: bool, ok: nat -> bool, flushes: nat -> bool, resumes: bool)
    returns (outcome: Sent, written: nat, holds: nat)
    requires MarkedOnce(events)
    ensures written <= |events| && holds <= 1 && (holds == 1 ==> hold && !disconnect)
    ensures outcome.Finished? ==> written == |events| && !disconnect && (holds == 1 <==> hold) && (hold ==> resumes)
    ensures outcome.Dropped? ==> disconnect && holds == 0 && written > 0 && events[written - 1].content
    ensures (forall i :: ok(i) && flushes(i)) ==>
              outcome == if disconnect then Dropped else if hold && !resumes then Canceled else Finished
  {
    ghost var m :| 0 <= m < |events| && events[m].content
                   && forall i :: 0 <= i < |events| && i != m ==> !events[i].content;
    written, holds := 0, 0;
    while written < |events|
      invariant written <= |events| && holds == (if written > m && hold then 1 else 0)
      invariant written > m ==> !disconnect && (hold ==> resumes)
    {
      var event := events[written];
      if !ok(written) {
        return Canceled, written, holds;
      }
      written := written + 1;
      if !event.content {
        continue;
      }
      if !flushes(written - 1) {
        return Canceled, written, holds;
      }
      if disconnect {
        return Dropped, written, holds;
      }
      if hold {
        holds := holds + 1;
        if !resumes {
          return Canceled, written, holds;
        }
      }
    }
    return Finished, written, holds;
  }
}
