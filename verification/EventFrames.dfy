/**
 * The text of an event stream: frames as the fake provider writes them, and the
 * reader that section 9.2 of the WHATWG HTML Living Standard prescribes.
 */
module EventFrames {

  /** An event with its name, which may be empty, and its encoded payload. */
  datatype Message = Message(name: string, data: string)

  // ---------------------------------------------------------------- writing

  /** `writeEvent` */
  function Frame(m: Message): string {
    (if m.name == "" then "" else "event: " + m.name + "\n") + ("data: " + m.data + "\n\n")
  }

  function Stream(ms: seq<Message>): string {
    if ms == [] then "" else Stream(ms[..|ms| - 1]) + Frame(ms[|ms| - 1])
  }

  // ---------------------------------------------------------------- reading

  predicate Break(c: char) {
    c == '\n' || c == '\r'
  }

  predicate OneLine(s: string) {
    forall i :: 0 <= i < |s| ==> !Break(s[i])
  }

  /** A line feed directly after a carriage return ends no second line. */
  datatype Reader = Reader(line: string, afterReturn: bool, kind: string, data: string, received: seq<Message>)

  const START := Reader("", false, "", "", [])

  function ColonFrom(line: string, i: nat): (n: nat)
    requires i <= |line|
    ensures i <= n <= |line|
    decreases |line| - i
  {
    if i == |line| || line[i] == ':' then i else ColonFrom(line, i + 1)
  }

  function Field(line: string): string {
    line[..ColonFrom(line, 0)]
  }

  /** The text after the colon, without one leading blank. */
  function Value(line: string): string {
    var n := ColonFrom(line, 0);
    if n == |line| then ""
    else if n + 1 < |line| && line[n + 1] == ' ' then line[n + 2..]
    else line[n + 1..]
  }

  const MESSAGE := "message"

  function Received(m: Message): Message {
    if m.name == "" then m.(name := MESSAGE) else m
  }

  function Dispatch(r: Reader): Reader {
    if r.data == "" then r.(kind := "")
    else r.(kind := "", data := "", received := r.received + [Received(Message(r.kind, r.data[..|r.data| - 1]))])
  }

  /** The line is complete. Identifiers and retry times only matter for connecting again. */
  function EndLine(r: Reader): Reader {
    var s := r.(line := "");
    if r.line == "" then Dispatch(s)
    else if r.line[0] == ':' then s
    else if Field(r.line) == "event" then s.(kind := Value(r.line))
    else if Field(r.line) == "data" then s.(data := r.data + Value(r.line) + "\n")
    else s
  }

  function Take(r: Reader, c: char): Reader {
    if c == '\n' && r.afterReturn then r.(afterReturn := false)
    else if c == '\n' then EndLine(r)
    else if c == '\r' then EndLine(r).(afterReturn := true)
    else r.(line := r.line + [c], afterReturn := false)
  }

  function Feed(r: Reader, s: string): Reader
    decreases |s|
  {
    if s == "" then r else Feed(Take(r, s[0]), s[1..])
  }

  /** The events of a stream; a byte order mark in front of it is skipped. */
  function Read(s: string): seq<Message> {
    Feed(START, if s != "" && s[0] == '\U{FEFF}' then s[1..] else s).received
  }

  // ---------------------------------------------------------------- piecewise reading

  lemma {:induction false} FeedAppends(r: Reader, a: string, b: string)
    ensures Feed(r, a + b) == Feed(Feed(r, a), b)
    decreases |a|
  {
    if a == "" {
      assert a + b == b;
    } else {
      assert (a + b)[1..] == a[1..] + b;
      FeedAppends(Take(r, a[0]), a[1..], b);
    }
  }

  lemma FeedOne(r: Reader, c: char)
    ensures Feed(r, [c]) == Take(r, c)
  {
    assert [c][1..] == "";
  }

  lemma {:induction false} FeedText(r: Reader, s: string)
    requires OneLine(s) && s != ""
    ensures Feed(r, s) == r.(line := r.line + s, afterReturn := false)
    decreases |s|
  {
    var next := Take(r, s[0]);
    assert next == r.(line := r.line + [s[0]], afterReturn := false);
    if |s| > 1 {
      FeedText(next, s[1..]);
      assert r.line + [s[0]] + s[1..] == r.line + s;
    } else {
      assert s[1..] == "" && s == [s[0]];
    }
  }

  /** One field with its line end, from the start of a line. */
  lemma FeedField(r: Reader, s: string, c: char)
    requires r.line == "" && OneLine(s) && s != "" && Break(c)
    ensures Feed(r, s + [c]) == EndLine(r.(line := s, afterReturn := false)).(afterReturn := c == '\r')
  {
    FeedAppends(r, s, [c]);
    FeedText(r, s);
    assert "" + s == s;
    FeedOne(Feed(r, s), c);
  }

  lemma EventField(name: string)
    ensures "event: " + name != "" && ("event: " + name)[0] != ':'
    ensures Field("event: " + name) == "event" && Value("event: " + name) == name
  {
    var line := "event: " + name;
    assert line[..5] == "event" && line[5] == ':' && line[6] == ' ';
    assert ColonFrom(line, 5) == 5 && ColonFrom(line, 4) == 5 && ColonFrom(line, 3) == 5;
    assert ColonFrom(line, 2) == 5 && ColonFrom(line, 1) == 5 && ColonFrom(line, 0) == 5;
    assert line[7..] == name;
  }

  lemma DataField(data: string)
    ensures "data: " + data != "" && ("data: " + data)[0] != ':'
    ensures Field("data: " + data) == "data" && Value("data: " + data) == data
  {
    var line := "data: " + data;
    assert line[..4] == "data" && line[4] == ':' && line[5] == ' ';
    assert ColonFrom(line, 4) == 4 && ColonFrom(line, 3) == 4 && ColonFrom(line, 2) == 4;
    assert ColonFrom(line, 1) == 4 && ColonFrom(line, 0) == 4;
    assert line[6..] == data;
  }

  /** Between two events. */
  predicate Idle(r: Reader) {
    r.line == "" && !r.afterReturn && r.kind == "" && r.data == ""
  }

  lemma OneLineAppends(a: string, b: string)
    ensures OneLine(a + b) <==> OneLine(a) && OneLine(b)
  {
    if OneLine(a + b) {
      assert forall i :: 0 <= i < |a| ==> (a + b)[i] == a[i];
      assert forall i :: 0 <= i < |b| ==> (a + b)[|a| + i] == b[i];
    }
  }

  /** The name of an event, if it is written. */
  lemma NameReads(r: Reader, name: string)
    requires Idle(r) && OneLine(name)
    ensures Feed(r, "event: " + name + "\n") == r.(kind := name)
  {
    OneLineAppends("event: ", name);
    FeedField(r, "event: " + name, '\n');
    EventField(name);
  }

  /** The first line of the payload. */
  lemma DataReads(r: Reader, data: string, c: char)
    requires r.line == "" && !r.afterReturn && r.data == "" && OneLine(data) && Break(c)
    ensures Feed(r, "data: " + data + [c]) == r.(data := data + "\n", afterReturn := c == '\r')
  {
    OneLineAppends("data: ", data);
    FeedField(r, "data: " + data, c);
    DataField(data);
    assert "" + data + "\n" == data + "\n";
  }

  lemma DispatchReads(r: Reader)
    requires r.line == "" && !r.afterReturn && r.data != ""
    ensures Feed(r, "\n") == r.(kind := "", data := "", received := r.received + [Received(Message(r.kind, r.data[..|r.data| - 1]))])
  {
    FeedOne(r, '\n');
  }

  /** The payload of an event, whose name is known. */
  lemma PayloadReads(r: Reader, name: string, data: string)
    requires Idle(r.(kind := "")) && r.kind == name && OneLine(data)
    ensures Feed(r, "data: " + data + "\n\n") == r.(kind := "", received := r.received + [Received(Message(name, data))])
  {
    var (line, s) := ("data: " + data + "\n", data + "\n");
    assert "data: " + data + "\n\n" == line + "\n";
    FeedAppends(r, line, "\n");
    DataReads(r, data, '\n');
    DispatchReads(r.(data := s));
    assert s[..|s| - 1] == data;
  }

  ghost predicate Plain(m: Message) {
    OneLine(m.name) && OneLine(m.data)
  }

  lemma FrameReads(r: Reader, m: Message)
    requires Idle(r) && Plain(m)
    ensures Feed(r, Frame(m)) == r.(received := r.received + [Received(m)])
  {
    NamePartReads(r, m);
    PayloadReads(r.(kind := m.name), m.name, m.data);
  }

  lemma NamePartReads(r: Reader, m: Message)
    requires Idle(r) && OneLine(m.name)
    ensures Feed(r, Frame(m)) == Feed(r.(kind := m.name), "data: " + m.data + "\n\n")
  {
    var rest := "data: " + m.data + "\n\n";
    if m.name == "" {
      assert "" + rest == rest && r.(kind := "") == r;
    } else {
      FeedAppends(r, "event: " + m.name + "\n", rest);
      NameReads(r, m.name);
    }
  }

  function AllReceived(ms: seq<Message>): (r: seq<Message>)
    ensures |r| == |ms| && forall i :: 0 <= i < |r| ==> r[i] == Received(ms[i])
  {
    seq(|ms|, i requires 0 <= i < |ms| => Received(ms[i]))
  }

  lemma {:induction false} StreamReads(ms: seq<Message>)
    requires forall m :: m in ms ==> Plain(m)
    ensures Feed(START, Stream(ms)) == START.(received := AllReceived(ms))
  {
    if ms != [] {
      var (init, last) := (ms[..|ms| - 1], ms[|ms| - 1]);
      StreamReads(init);
      FeedAppends(START, Stream(init), Frame(last));
      FrameReads(START.(received := AllReceived(init)), last);
      assert AllReceived(ms) == AllReceived(init) + [Received(last)];
    }
  }

  // ---------------------------------------------------------------- what a line break does

  /** The payload text that has reached the reader; a line end in it counts only once another follows. */
  function Size(ms: seq<Message>): nat {
    if ms == [] then 0 else Size(ms[..|ms| - 1]) + |ms[|ms| - 1].data|
  }

  function Weight(r: Reader): nat {
    Size(r.received) + (if r.data == "" then 0 else |r.data| - 1) + |r.line|
  }

  /** How many characters of a text break no line. */
  function Solid(s: string): nat {
    if s == "" then 0 else (if Break(s[0]) then 0 else 1) + Solid(s[1..])
  }

  lemma ValueIsShort(line: string)
    requires line != ""
    ensures Field(line) == "data" ==> |Value(line)| + 4 <= |line|
  {
    assert Field(line) == "data" ==> ColonFrom(line, 0) == 4;
  }

  lemma SizeAdds(ms: seq<Message>, m: Message)
    ensures Size(ms + [m]) == Size(ms) + |m.data|
  {
    assert (ms + [m])[..|ms|] == ms;
  }

  lemma EndLineWeighs(r: Reader)
    ensures Weight(EndLine(r)) <= Weight(r)
  {
    if r.line != "" {
      ValueIsShort(r.line);
    } else if r.data != "" {
      SizeAdds(r.received, Received(Message(r.kind, r.data[..|r.data| - 1])));
    }
  }

  lemma {:induction false} FeedWeighs(r: Reader, s: string)
    ensures Weight(Feed(r, s)) <= Weight(r) + Solid(s)
    decreases |s|
  {
    if s != "" {
      EndLineWeighs(r);
      FeedWeighs(Take(r, s[0]), s[1..]);
    }
  }

  lemma {:induction false} SolidAppends(a: string, b: string)
    ensures Solid(a + b) == Solid(a) + Solid(b)
    decreases |a|
  {
    if a == "" {
      assert a + b == b;
    } else {
      assert (a + b)[1..] == a[1..] + b;
      SolidAppends(a[1..], b);
    }
  }

  lemma {:induction false} SolidIsOneLine(s: string)
    ensures Solid(s) <= |s| && (Solid(s) == |s| <==> OneLine(s))
    decreases |s|
  {
    if s != "" {
      SolidIsOneLine(s[1..]);
      if OneLine(s[1..]) && !Break(s[0]) {
        assert forall i :: 0 < i < |s| ==> s[i] == s[1..][i - 1];
      }
    }
  }

  lemma {:induction false} FirstBreak(s: string) returns (n: nat)
    requires !OneLine(s)
    ensures n < |s| && Break(s[n]) && OneLine(s[..n])
    decreases |s|
  {
    n := 0;
    if !Break(s[0]) {
      assert !OneLine(s[1..]) by {
        var i :| 0 <= i < |s| && Break(s[i]);
        assert s[1..][i - 1] == s[i];
      }
      n := FirstBreak(s[1..]);
      assert s[..n + 1] == [s[0]] + s[1..][..n];
      n := n + 1;
    }
  }

  /** A frame never delivers more text than its payload has outside line breaks. */
  lemma FrameWeighs(r: Reader, m: Message)
    requires Idle(r) && OneLine(m.name)
    ensures Weight(Feed(r, Frame(m))) <= Weight(r) + Solid(m.data)
  {
    NamePartReads(r, m);
    var named := r.(kind := m.name);
    if OneLine(m.data) {
      PayloadReads(named, m.name, m.data);
      SizeAdds(r.received, Received(m));
      SolidIsOneLine(m.data);
    } else {
      var n := FirstBreak(m.data);
      var (first, rest) := (m.data[..n], m.data[n + 1..]);
      var (head, tail) := ("data: " + first + [m.data[n]], rest + "\n\n");
      assert m.data == first + [m.data[n]] + rest;
      assert "data: " + m.data + "\n\n" == head + tail;
      FeedAppends(named, head, tail);
      DataReads(named, first, m.data[n]);
      FeedWeighs(Feed(named, head), tail);
      SolidAppends(rest, "\n\n");
      SolidAppends(first + [m.data[n]], rest);
      SolidAppends(first, [m.data[n]]);
      SolidIsOneLine(first);
      assert Solid("\n\n") == Solid("\n\n"[1..]) == 0;
      assert Solid([m.data[n]]) == 0;
    }
  }

  /** Whatever a frame contains, its two line ends leave the reader between events. */
  lemma FrameEnds(r: Reader, m: Message)
    ensures Idle(Feed(r, Frame(m)))
  {
    var init := (if m.name == "" then "" else "event: " + m.name + "\n") + ("data: " + m.data);
    assert Frame(m) == init + "\n\n";
    FeedAppends(r, init, "\n\n");
    var s := Feed(r, init);
    assert "\n\n" == "\n" + "\n";
    FeedAppends(s, "\n", "\n");
    FeedOne(s, '\n');
    FeedOne(Take(s, '\n'), '\n');
    ReturnEndsLine(r, init);
    EmptyLines(s);
  }

  lemma EmptyLines(s: Reader)
    requires s.afterReturn ==> s.line == ""
    ensures Idle(Take(Take(s, '\n'), '\n'))
  {
  }

  /** After a carriage return the line is empty. */
  lemma {:induction false} ReturnEndsLine(r: Reader, s: string)
    requires s != ""
    ensures Feed(r, s).afterReturn ==> Feed(r, s).line == ""
    decreases |s|
  {
    if |s| > 1 {
      ReturnEndsLine(Take(r, s[0]), s[1..]);
    }
  }

  /** No name the reader reports has a line break. */
  ghost predicate NamesPlain(r: Reader) {
    OneLine(r.line) && OneLine(r.kind) && forall m :: m in r.received ==> OneLine(m.name)
  }

  lemma TakeNamesPlain(r: Reader, c: char)
    requires NamesPlain(r)
    ensures NamesPlain(Take(r, c))
  {
    if !Break(c) {
      OneLineAppends(r.line, [c]);
    } else {
      assert OneLine(Value(r.line));
      assert OneLine(MESSAGE) && OneLine("");
    }
  }

  lemma {:induction false} FeedNamesPlain(r: Reader, s: string)
    requires NamesPlain(r)
    ensures NamesPlain(Feed(r, s))
    decreases |s|
  {
    if s != "" {
      TakeNamesPlain(r, s[0]);
      FeedNamesPlain(Take(r, s[0]), s[1..]);
    }
  }

  function AllSolid(ms: seq<Message>): nat {
    if ms == [] then 0 else AllSolid(ms[..|ms| - 1]) + Solid(ms[|ms| - 1].data)
  }

  lemma {:induction false} StreamWeighs(ms: seq<Message>)
    requires forall m :: m in ms ==> OneLine(m.name)
    ensures Idle(Feed(START, Stream(ms))) && Size(Feed(START, Stream(ms)).received) <= AllSolid(ms)
  {
    if ms != [] {
      var (init, last) := (ms[..|ms| - 1], ms[|ms| - 1]);
      StreamWeighs(init);
      FeedAppends(START, Stream(init), Frame(last));
      FrameWeighs(Feed(START, Stream(init)), last);
      FrameEnds(Feed(START, Stream(init)), last);
    }
  }

  lemma SizesSplit(init: seq<Message>, last: Message)
    ensures Size(AllReceived(init + [last])) == Size(AllReceived(init)) + |last.data|
    ensures AllSolid(init + [last]) == AllSolid(init) + Solid(last.data)
  {
    assert AllReceived(init + [last]) == AllReceived(init) + [Received(last)];
    SizeAdds(AllReceived(init), Received(last));
    assert (init + [last])[..|init|] == init;
  }

  lemma {:induction false} SolidIsPlain(ms: seq<Message>)
    ensures AllSolid(ms) <= Size(AllReceived(ms))
    ensures AllSolid(ms) == Size(AllReceived(ms)) ==> forall m :: m in ms ==> OneLine(m.data)
    decreases |ms|
  {
    if ms != [] {
      var (init, last) := (ms[..|ms| - 1], ms[|ms| - 1]);
      assert ms == init + [last];
      SolidIsPlain(init);
      SolidIsOneLine(last.data);
      SizesSplit(init, last);
    }
  }

  lemma StreamHasNoMark(ms: seq<Message>)
    ensures Read(Stream(ms)) == Feed(START, Stream(ms)).received
  {
    if ms != [] {
      StreamStarts(ms);
    }
  }

  lemma {:induction false} StreamStarts(ms: seq<Message>)
    requires ms != []
    ensures Stream(ms) != "" && Stream(ms)[0] in {'e', 'd'}
    decreases |ms|
  {
    if |ms| > 1 {
      StreamStarts(ms[..|ms| - 1]);
    } else {
      assert ms[..0] == [] && Stream([]) == "";
      var (f, rest) := (Frame(ms[0]), "data: " + ms[0].data + "\n\n");
      assert ms[0].name == "" ==> f == rest && rest[0] == 'd';
    }
  }

  /** A stream is read back event by event if and only if no name and no payload in it has a line break. */
  lemma StreamRoundTrip(ms: seq<Message>)
    ensures Read(Stream(ms)) == AllReceived(ms) <==> forall m :: m in ms ==> Plain(m)
  {
    StreamHasNoMark(ms);
    if forall m :: m in ms ==> Plain(m) {
      StreamReads(ms);
    } else if Read(Stream(ms)) == AllReceived(ms) {
      FeedNamesPlain(START, Stream(ms));
      forall m | m in ms ensures OneLine(m.name) {
        var i :| 0 <= i < |ms| && ms[i] == m;
        assert AllReceived(ms)[i] == Received(m) && AllReceived(ms)[i] in AllReceived(ms);
      }
      StreamWeighs(ms);
      SolidIsPlain(ms);
      assert false;
    }
  }

  lemma {:induction false} FeedOnlyAdds(r: Reader, s: string)
    ensures r.received <= Feed(r, s).received
    decreases |s|
  {
    if s != "" {
      FeedOnlyAdds(Take(r, s[0]), s[1..]);
    }
  }

  /** Wherever a stream is cut off, what has been read are its first events, unchanged. */
  lemma CutStreamReads(ms: seq<Message>, part: string)
    requires (forall m :: m in ms ==> Plain(m)) && part <= Stream(ms)
    ensures Read(part) <= AllReceived(ms)
  {
    StreamHasNoMark(ms);
    StreamReads(ms);
    var rest := Stream(ms)[|part|..];
    assert Stream(ms) == part + rest;
    FeedAppends(START, part, rest);
    FeedOnlyAdds(Feed(START, part), rest);
    if part != "" {
      assert ms != [];
      StreamStarts(ms);
      assert part[0] == Stream(ms)[0];
    }
  }
}
