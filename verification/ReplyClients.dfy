/** Feeding a list into a state one element at a time, as long as every element fits. */
module Folding {
  import opened Options

  function Run<S, P>(s: S, ps: seq<P>, take: (S, P) -> Option<S>): Option<S> {
    if ps == [] then Some(s) else Bind(Run(s, ps[..|ps| - 1], take), ps[|ps| - 1], take)
  }

  function Bind<S, P>(s: Option<S>, p: P, take: (S, P) -> Option<S>): Option<S> {
    if s.None? then None else take(s.value, p)
  }

  lemma RunOne<S, P>(s: S, ps: seq<P>, p: P, take: (S, P) -> Option<S>)
    ensures Run(s, ps + [p], take) == Bind(Run(s, ps, take), p, take)
  {
    assert (ps + [p])[..|ps|] == ps;
  }

  lemma {:induction false} RunAppends<S, P>(s: S, a: seq<P>, b: seq<P>, take: (S, P) -> Option<S>)
    requires Run(s, a, take).Some?
    ensures Run(s, a + b, take) == Run(Run(s, a, take).value, b, take)
  {
    if b == [] {
      assert a + b == a;
    } else {
      var (init, last) := (b[..|b| - 1], b[|b| - 1]);
      RunAppends(s, a, init, take);
      RunOne(s, a + init, last, take);
      assert a + init + [last] == a + b;
    }
  }

  lemma RunTwo<S, P>(s: S, p: P, q: P, take: (S, P) -> Option<S>)
    ensures Run(s, [p, q], take) == Bind(take(s, p), q, take)
  {
    RunOne(s, [], p, take);
    RunOne(s, [p], q, take);
    assert [] + [p] == [p] && [p] + [q] == [p, q];
  }

  lemma RunThree<S, P>(s: S, p: P, q: P, r: P, take: (S, P) -> Option<S>)
    ensures Run(s, [p, q, r], take) == Bind(Bind(take(s, p), q, take), r, take)
  {
    RunTwo(s, p, q, take);
    RunOne(s, [p, q], r, take);
    assert [p, q] + [r] == [p, q, r];
  }
}

/** What a client makes of a stream, against the complete body of the same reply. */
module ReplyClients {
  import opened Options
  import opened Folding
  import opened ReplyStream
  import EventFrames

  // ---------------------------------------------------------------- Anthropic

  /** It takes blocks only in order of their index, and parts only for the one that is open. */
  datatype Messages = Messages(
    blocks: seq<Block>, open: Option<Block>, received: string, stop: Option<string>, started: bool, ended: bool)

  /** A block with the parts received for it. */
  function Closed(b: Block, received: string): Block {
    match b
    case TextBlock(text) => TextBlock(text + received)
    case ToolBlock(id, name, _) => ToolBlock(id, name, received)
  }

  function TakeMessage(c: Messages, p: Payload): Option<Messages> {
    if c.ended || (c.started <==> p.MessageStart?) then None
    else
      match p
      case MessageStart => Some(c.(started := true))
      case BlockStart(i, b) =>
        if c.open.None? && i == |c.blocks| && c.stop.None? then Some(c.(open := Some(b), received := "")) else None
      case TextPart(i, text) =>
        if c.open.Some? && c.open.value.TextBlock? && i == |c.blocks| then Some(c.(received := c.received + text)) else None
      case JsonPart(i, json) =>
        if c.open.Some? && c.open.value.ToolBlock? && i == |c.blocks| then Some(c.(received := c.received + json)) else None
      case BlockStop(i) =>
        if c.open.Some? && i == |c.blocks|
        then Some(c.(blocks := c.blocks + [Closed(c.open.value, c.received)], open := None, received := "")) else None
      case MessageDelta(stop) => if c.open.None? then Some(c.(stop := Some(stop))) else None
      case MessageStop => if c.open.None? then Some(c.(ended := true)) else None
      case _ => None
  }

  function Reading(blocks: seq<Block>): Messages {
    Messages(blocks, None, "", None, true, false)
  }

  lemma BlockIsTaken(blocks: seq<Block>, b: Block)
    ensures Run(Reading(blocks), Bare(BlockEntries(|blocks|, b)), TakeMessage) == Some(Reading(blocks + [b]))
  {
    var (n, c) := (|blocks|, Reading(blocks));
    RunThree(c, BlockStart(n, Opening(b)), Part(n, b), BlockStop(n), TakeMessage);
    assert Bare(BlockEntries(n, b)) == [BlockStart(n, Opening(b)), Part(n, b), BlockStop(n)];
    match b {
      case TextBlock(text) => assert "" + ("" + text) == text;
      case ToolBlock(_, _, input) => assert "" + input == input;
    }
  }

  lemma NextBlockIsTaken(before: seq<Block>, a: seq<Entry>, block: Block, b: seq<Entry>)
    requires Run(Reading([]), Bare(a), TakeMessage) == Some(Reading(before)) && b == BlockEntries(|before|, block)
    ensures Run(Reading([]), Bare(a + b), TakeMessage) == Some(Reading(before + [block]))
  {
    BlockIsTaken(before, block);
    RunAppends(Reading([]), Bare(a), Bare(b), TakeMessage);
    BareAppends(a, b);
  }

  ghost predicate Builds(blocks: seq<Block>, entries: seq<Entry>) {
    Run(Reading([]), Bare(entries), TakeMessage) == Some(Reading(blocks))
  }

  lemma NextBlockIsBuilt(blocks: seq<Block>, a: seq<Entry>)
    requires blocks != [] && Builds(blocks[..|blocks| - 1], a)
    ensures Builds(blocks, a + BlockEntries(|blocks| - 1, blocks[|blocks| - 1]))
  {
    var (init, last) := (blocks[..|blocks| - 1], blocks[|blocks| - 1]);
    NextBlockIsTaken(init, a, last, BlockEntries(|init|, last));
    assert init + [last] == blocks;
  }

  lemma {:induction false} BlocksAreTaken(blocks: seq<Block>)
    ensures Builds(blocks, BlocksEntries(blocks))
  {
    if blocks != [] {
      BlocksAreTaken(blocks[..|blocks| - 1]);
      NextBlockIsBuilt(blocks, BlocksEntries(blocks[..|blocks| - 1]));
    }
  }

  const NO_MESSAGES := Messages([], None, "", None, false, false)

  /** Put together again, the Anthropic stream is the content and the stop reason of the complete body. */
  lemma AnthropicAgrees(reply: Reply)
    ensures Run(NO_MESSAGES, Payloads(Written(AnthropicEntries(reply))), TakeMessage)
         == Some(Messages(AnthropicContent(reply), None, "", Some(AnthropicStop(reply)), true, true))
  {
    var (content, stop) := (AnthropicContent(reply), AnthropicStop(reply));
    PayloadsWritten(AnthropicEntries(reply));
    BlocksAreTaken(content);
    StreamIsTaken(content, stop, BlocksEntries(content));
  }

  lemma StreamIsTaken(content: seq<Block>, stop: string, middle: seq<Entry>)
    requires Run(Reading([]), Bare(middle), TakeMessage) == Some(Reading(content))
    ensures Run(NO_MESSAGES,
                Bare([Entry(MessageStart, false)] + middle + [Entry(MessageDelta(stop), false), Entry(MessageStop, false)]),
                TakeMessage)
         == Some(Messages(content, None, "", Some(stop), true, true))
  {
    var (head, tail) := ([Entry(MessageStart, false)], [Entry(MessageDelta(stop), false), Entry(MessageStop, false)]);
    BareAppends(head, middle);
    BareAppends(head + middle, tail);
    assert Bare(head) == [MessageStart] && Bare(tail) == [MessageDelta(stop), MessageStop];
    RunOne(NO_MESSAGES, [], MessageStart, TakeMessage);
    assert [] + [MessageStart] == [MessageStart];
    RunAppends(NO_MESSAGES, Bare(head), Bare(middle), TakeMessage);
    RunAppends(NO_MESSAGES, Bare(head + middle), Bare(tail), TakeMessage);
    RunTwo(Reading(content), MessageDelta(stop), MessageStop, TakeMessage);
  }

  lemma {:induction false} BlocksCarry(blocks: seq<Block>)
    requires blocks != []
    ensures |BlocksEntries(blocks)| >= 3 && BlocksEntries(blocks)[1].carries
  {
    if |blocks| > 1 {
      BlocksCarry(blocks[..|blocks| - 1]);
    } else {
      assert blocks[..0] == [];
    }
  }

  // ---------------------------------------------------------------- OpenAI chat

  datatype Chat = Chat(text: string, calls: seq<ChatCall>, finish: Option<string>, ended: bool)

  function TakeChunk(c: Chat, p: Payload): Option<Chat> {
    if c.ended then None
    else
      match p
      case ChatChunk(content, calls, finish) =>
        if c.finish.Some? then None else Some(Chat(c.text + content, c.calls + calls, finish, false))
      case DoneMark => if c.finish.Some? then Some(c.(ended := true)) else None
      case _ => None
  }

  /** The chat stream gives the text, the tool calls and the finish reason of the complete body. */
  lemma ChatAgrees(reply: Reply)
    ensures Run(Chat("", [], None, false), Payloads(Written(ChatEntries(reply))), TakeChunk)
         == Some(Chat(if ChatContent(reply).Some? then ChatContent(reply).value else "",
                      ChatCalls(reply.calls), Some(ChatFinish(reply)), true))
    ensures forall i :: 0 <= i < |ChatCalls(reply.calls)| ==> ChatCalls(reply.calls)[i].index == i
  {
    var (calls, finish) := (ChatCalls(reply.calls), ChatFinish(reply));
    PayloadsWritten(ChatEntries(reply));
    assert Bare(ChatEntries(reply)) == [ChatChunk(reply.text, calls, None), ChatChunk("", [], Some(finish)), DoneMark];
    RunThree(Chat("", [], None, false), ChatChunk(reply.text, calls, None), ChatChunk("", [], Some(finish)), DoneMark, TakeChunk);
    assert "" + reply.text == reply.text && reply.text + "" == reply.text;
    assert [] + calls == calls && calls + [] == calls;
  }

  // ---------------------------------------------------------------- OpenAI responses

  /**
   * It takes numbers only without a gap, items only in order of their index, and builds the
   * text of a message from its parts.
   */
  datatype Output = Output(items: seq<OutputItem>, open: Option<OutputItem>, received: string, number: nat, ended: bool)

  function TakeItem(c: Output, p: Payload): Option<Output> {
    if c.ended then None
    else
      match p
      case ItemAdded(n, i, item) =>
        if n == c.number && i == |c.items| && c.open.None?
        then Some(c.(number := n + 1, open := Some(item), received := "")) else None
      case ItemText(n, i, text) =>
        if n == c.number && i == |c.items| && c.open.Some? && c.open.value.MessageItem?
        then Some(c.(number := n + 1, received := c.received + text)) else None
      case ItemTextDone(n, i, text) =>
        if n == c.number && i == |c.items| && c.open.Some? && text == c.received then Some(c.(number := n + 1)) else None
      case ItemDone(n, i, item) =>
        if n == c.number && i == |c.items| && c.open == Some(item) && (item.MessageItem? ==> item.text == c.received)
        then Some(c.(number := n + 1, items := c.items + [item], open := None, received := "")) else None
      case Completed(n, output) =>
        if n == c.number && c.open.None? && output == c.items then Some(c.(number := n + 1, ended := true)) else None
      case _ => None
  }

  function Between(items: seq<OutputItem>, number: nat): Output {
    Output(items, None, "", number, false)
  }

  lemma ItemIsTaken(items: seq<OutputItem>, n: nat, item: OutputItem)
    ensures Run(Between(items, n), Bare(ItemEntries(n, |items|, item)), TakeItem)
         == Some(Between(items + [item], n + |ItemEntries(n, |items|, item)|))
  {
    var (c, i) := (Between(items, n), |items|);
    match item {
      case MessageItem(text) =>
        var ps := [ItemAdded(n, i, item), ItemText(n + 1, i, text), ItemTextDone(n + 2, i, text)];
        RunThree(c, ps[0], ps[1], ps[2], TakeItem);
        RunOne(c, ps, ItemDone(n + 3, i, item), TakeItem);
        assert "" + text == text;
        assert Bare(ItemEntries(n, i, item)) == ps + [ItemDone(n + 3, i, item)];
      case FunctionItem(_, _, _) =>
        RunTwo(c, ItemAdded(n, i, item), ItemDone(n + 1, i, item), TakeItem);
        assert Bare(ItemEntries(n, i, item)) == [ItemAdded(n, i, item), ItemDone(n + 1, i, item)];
    }
  }

  lemma NextItemIsTaken(before: seq<OutputItem>, a: seq<Entry>, item: OutputItem, b: seq<Entry>)
    requires Run(Between([], 0), Bare(a), TakeItem) == Some(Between(before, |a|))
    requires b == ItemEntries(|a|, |before|, item)
    ensures Run(Between([], 0), Bare(a + b), TakeItem) == Some(Between(before + [item], |a + b|))
  {
    ItemIsTaken(before, |a|, item);
    RunAppends(Between([], 0), Bare(a), Bare(b), TakeItem);
    BareAppends(a, b);
  }

  ghost predicate Reads(items: seq<OutputItem>, entries: seq<Entry>) {
    Run(Between([], 0), Bare(entries), TakeItem) == Some(Between(items, |entries|))
  }

  lemma NextItemIsRead(items: seq<OutputItem>, a: seq<Entry>)
    requires items != [] && Reads(items[..|items| - 1], a)
    ensures Reads(items, a + ItemEntries(|a|, |items| - 1, items[|items| - 1]))
  {
    var (init, last) := (items[..|items| - 1], items[|items| - 1]);
    NextItemIsTaken(init, a, last, ItemEntries(|a|, |init|, last));
    assert init + [last] == items;
  }

  lemma {:induction false} ItemsAreTaken(items: seq<OutputItem>)
    ensures Reads(items, ItemsEntries(items))
  {
    if items != [] {
      ItemsAreTaken(items[..|items| - 1]);
      NextItemIsRead(items, ItemsEntries(items[..|items| - 1]));
    }
  }

  /** The responses stream gives the output of the complete body, numbered without gaps from zero. */
  lemma ResponsesAgree(reply: Reply)
    ensures Run(Between([], 0), Payloads(Written(ResponsesEntries(reply))), TakeItem)
         == Some(Output(ResponseOutput(reply), None, "", |ResponsesEntries(reply)|, true))
  {
    var output := ResponseOutput(reply);
    PayloadsWritten(ResponsesEntries(reply));
    ItemsAreTaken(output);
    CompletionIsTaken(output, ItemsEntries(output));
  }

  lemma CompletionIsTaken(output: seq<OutputItem>, items: seq<Entry>)
    requires Run(Between([], 0), Bare(items), TakeItem) == Some(Between(output, |items|))
    ensures Run(Between([], 0), Bare(items + [Entry(Completed(|items|, output), false)]), TakeItem)
         == Some(Output(output, None, "", |items| + 1, true))
  {
    var last := [Entry(Completed(|items|, output), false)];
    BareAppends(items, last);
    assert Bare(last) == [Completed(|items|, output)];
    RunOne(Between([], 0), Bare(items), Completed(|items|, output), TakeItem);
  }

  lemma {:induction false} ItemsCarry(items: seq<OutputItem>)
    requires items != []
    ensures |ItemsEntries(items)| >= 1 && ItemsEntries(items)[0].carries
  {
    if |items| > 1 {
      ItemsCarry(items[..|items| - 1]);
    } else {
      assert items[..0] == [];
    }
  }

  /** In every protocol exactly one event is the content mark, so a stream is held once at most. */
  lemma EveryStreamIsMarkedOnce(reply: Reply)
    ensures MarkedOnce(Written(AnthropicEntries(reply)))
    ensures MarkedOnce(Written(ChatEntries(reply)))
    ensures MarkedOnce(Written(ResponsesEntries(reply)))
  {
    BlocksCarry(AnthropicContent(reply));
    CarriesIfMember(AnthropicEntries(reply), 2);
    OneMark(AnthropicEntries(reply));
    CarriesIfMember(ChatEntries(reply), 0);
    OneMark(ChatEntries(reply));
    ItemsCarry(ResponseOutput(reply));
    CarriesIfMember(ResponsesEntries(reply), 0);
    OneMark(ResponsesEntries(reply));
  }

  // ---------------------------------------------------------------- over the wire

  /** How payloads are named and encoded, and what a client makes of an event. */
  datatype Codec = Codec(name: Payload -> string, data: Payload -> string, decode: EventFrames.Message -> Payload)

  function Sent(codec: Codec, p: Payload): EventFrames.Message {
    EventFrames.Message(codec.name(p), codec.data(p))
  }

  /** Encoding leaves no line break, as JSON does not, and decoding is its inverse. */
  ghost predicate Sound(codec: Codec) {
    forall p :: EventFrames.Plain(Sent(codec, p)) && codec.decode(EventFrames.Received(Sent(codec, p))) == p
  }

  function AllSent(codec: Codec, ps: seq<Payload>): (ms: seq<EventFrames.Message>)
    ensures |ms| == |ps| && forall i :: 0 <= i < |ms| ==> ms[i] == Sent(codec, ps[i])
  {
    seq(|ps|, i requires 0 <= i < |ps| => Sent(codec, ps[i]))
  }

  function Decoded(codec: Codec, ms: seq<EventFrames.Message>): (ps: seq<Payload>)
    ensures |ps| == |ms| && forall i :: 0 <= i < |ps| ==> ps[i] == codec.decode(ms[i])
  {
    seq(|ms|, i requires 0 <= i < |ms| => codec.decode(ms[i]))
  }

  /** The text `writeEvents` writes, and what is read of it. */
  function Wire(codec: Codec, events: seq<Event>): string {
    EventFrames.Stream(AllSent(codec, Payloads(events)))
  }

  function Heard(codec: Codec, text: string): seq<Payload> {
    Decoded(codec, EventFrames.Read(text))
  }

  lemma WireRoundTrip(codec: Codec, events: seq<Event>)
    requires Sound(codec)
    ensures Heard(codec, Wire(codec, events)) == Payloads(events)
  {
    var ps := Payloads(events);
    var ms := AllSent(codec, ps);
    forall m | m in ms ensures EventFrames.Plain(m) {
      var i :| 0 <= i < |ms| && ms[i] == m;
      assert m == Sent(codec, ps[i]);
    }
    EventFrames.StreamRoundTrip(ms);
    forall i | 0 <= i < |ps| ensures Decoded(codec, EventFrames.AllReceived(ms))[i] == ps[i] {
      assert ms[i] == Sent(codec, ps[i]);
    }
  }

  /** From reply to text and back: each client ends with what the complete body says. */
  lemma RepliesSurviveTheWire(codec: Codec, reply: Reply)
    requires Sound(codec)
    ensures Run(NO_MESSAGES, Heard(codec, Wire(codec, Written(AnthropicEntries(reply)))), TakeMessage)
         == Some(Messages(AnthropicContent(reply), None, "", Some(AnthropicStop(reply)), true, true))
    ensures Run(Chat("", [], None, false), Heard(codec, Wire(codec, Written(ChatEntries(reply)))), TakeChunk)
         == Some(Chat(if ChatContent(reply).Some? then ChatContent(reply).value else "",
                      ChatCalls(reply.calls), Some(ChatFinish(reply)), true))
    ensures Run(Between([], 0), Heard(codec, Wire(codec, Written(ResponsesEntries(reply)))), TakeItem)
         == Some(Output(ResponseOutput(reply), None, "", |ResponsesEntries(reply)|, true))
  {
    WireRoundTrip(codec, Written(AnthropicEntries(reply)));
    AnthropicAgrees(reply);
    WireRoundTrip(codec, Written(ChatEntries(reply)));
    ChatAgrees(reply);
    WireRoundTrip(codec, Written(ResponsesEntries(reply)));
    ResponsesAgree(reply);
  }

  // ---------------------------------------------------------------- what the client knows of the reply

  /** A part of a reply, in whichever protocol it has come. */
  datatype Piece = Said(text: string) | Called(call: Call)

  function BlockPieces(blocks: seq<Block>): (r: seq<Piece>)
    ensures |r| == |blocks|
  {
    seq(|blocks|, i requires 0 <= i < |blocks| =>
      match blocks[i] case TextBlock(text) => Said(text) case ToolBlock(id, name, input) => Called(Call(id, name, input)))
  }

  function ItemPieces(items: seq<OutputItem>): (r: seq<Piece>)
    ensures |r| == |items|
  {
    seq(|items|, i requires 0 <= i < |items| =>
      match items[i] case MessageItem(text) => Said(text) case FunctionItem(id, name, arguments) => Called(Call(id, name, arguments)))
  }

  function ChatPieces(text: string, calls: seq<ChatCall>): (r: seq<Piece>)
    ensures |r| == |calls| + 1
  {
    [Said(text)] + seq(|calls|, i requires 0 <= i < |calls| => Called(Call(calls[i].id, calls[i].name, calls[i].arguments)))
  }

  /** All that was said, and all calls in order. */
  function Told(pieces: seq<Piece>): Reply {
    if pieces == [] then Reply("", [])
    else
      var before := Told(pieces[..|pieces| - 1]);
      match pieces[|pieces| - 1]
      case Said(text) => before.(text := before.text + text)
      case Called(call) => before.(calls := before.calls + [call])
  }

  lemma {:induction false} CallsAreTold(first: seq<Piece>, calls: seq<Call>, pieces: seq<Piece>)
    requires |pieces| == |first| + |calls| && first <= pieces
    requires forall i :: 0 <= i < |calls| ==> pieces[|first| + i] == Called(calls[i])
    ensures Told(pieces) == Reply(Told(first).text, Told(first).calls + calls)
  {
    if calls == [] {
      assert pieces == first;
    } else {
      var n := |calls| - 1;
      CallsAreTold(first, calls[..n], pieces[..|pieces| - 1]);
      assert calls[..n] + [calls[n]] == calls;
      assert Told(first).calls + calls[..n] + [calls[n]] == Told(first).calls + calls;
    }
  }

  lemma WholeIsTold(reply: Reply, first: seq<Piece>, pieces: seq<Piece>)
    requires first == [Said(reply.text)] || (first == [] && reply.text == "")
    requires |pieces| == |first| + |reply.calls| && first <= pieces
    requires forall i :: 0 <= i < |reply.calls| ==> pieces[|first| + i] == Called(reply.calls[i])
    ensures Told(pieces) == reply
  {
    assert first != [] ==> first[..0] == [];
    CallsAreTold(first, reply.calls, pieces);
  }

  /** The Anthropic body tells the whole reply, and whether it calls tools. */
  lemma AnthropicTells(reply: Reply)
    ensures Told(BlockPieces(AnthropicContent(reply))) == reply
    ensures AnthropicStop(reply) == if |reply.calls| > 0 then "tool_use" else "end_turn"
    ensures (exists b :: b in AnthropicContent(reply) && b.TextBlock?) <==> reply.text != "" || |reply.calls| == 0
  {
    var pieces := BlockPieces(AnthropicContent(reply));
    if IncludesText(reply) {
      assert AnthropicContent(reply)[0] == TextBlock(reply.text);
      WholeIsTold(reply, [Said(reply.text)], pieces);
    } else {
      WholeIsTold(reply, [], pieces);
    }
  }

  /** So does the output of a response. */
  lemma ResponseTells(reply: Reply)
    ensures Told(ItemPieces(ResponseOutput(reply))) == reply
    ensures (exists o :: o in ResponseOutput(reply) && o.MessageItem?) <==> reply.text != "" || |reply.calls| == 0
  {
    var pieces := ItemPieces(ResponseOutput(reply));
    if IncludesText(reply) {
      assert ResponseOutput(reply)[0] == MessageItem(reply.text);
      WholeIsTold(reply, [Said(reply.text)], pieces);
    } else {
      WholeIsTold(reply, [], pieces);
    }
  }

  /** So does a chat body, in which an absent content stands for an empty text beside tool calls. */
  lemma ChatTells(reply: Reply)
    ensures Told(ChatPieces(if ChatContent(reply).Some? then ChatContent(reply).value else "", ChatCalls(reply.calls))) == reply
    ensures ChatFinish(reply) == if |reply.calls| > 0 then "tool_calls" else "stop"
    ensures ChatContent(reply).None? <==> reply.text == "" && |reply.calls| > 0
  {
    WholeIsTold(reply, [Said(reply.text)], ChatPieces(reply.text, ChatCalls(reply.calls)));
  }

  /** From a reply to the text of its stream, and from the text to the very same reply, in all three protocols. */
  lemma RepliesAreUnderstood(codec: Codec, reply: Reply) returns (messages: Messages, chat: Chat, output: Output)
    requires Sound(codec)
    ensures Run(NO_MESSAGES, Heard(codec, Wire(codec, Written(AnthropicEntries(reply)))), TakeMessage) == Some(messages)
    ensures messages.ended && Told(BlockPieces(messages.blocks)) == reply
    ensures messages.stop == Some(if |reply.calls| > 0 then "tool_use" else "end_turn")
    ensures Run(Chat("", [], None, false), Heard(codec, Wire(codec, Written(ChatEntries(reply)))), TakeChunk) == Some(chat)
    ensures chat.ended && Told(ChatPieces(chat.text, chat.calls)) == reply
    ensures chat.finish == Some(if |reply.calls| > 0 then "tool_calls" else "stop")
    ensures Run(Between([], 0), Heard(codec, Wire(codec, Written(ResponsesEntries(reply)))), TakeItem) == Some(output)
    ensures output.ended && Told(ItemPieces(output.items)) == reply
  {
    RepliesSurviveTheWire(codec, reply);
    AnthropicTells(reply);
    ChatTells(reply);
    ResponseTells(reply);
    messages := Messages(AnthropicContent(reply), None, "", Some(AnthropicStop(reply)), true, true);
    chat := Chat(if ChatContent(reply).Some? then ChatContent(reply).value else "",
                 ChatCalls(reply.calls), Some(ChatFinish(reply)), true);
    output := Output(ResponseOutput(reply), None, "", |ResponsesEntries(reply)|, true);
  }
}
