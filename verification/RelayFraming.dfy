/**
 * Framing on one connection of the owner's relay server. The decoded text arrives in chunks;
 * the first chunk that completes a line, or the end of the stream, has the buffer processed,
 * unless it became too large before.
 */
module RelayFraming {
  import opened Options

  type Char = nat  // a code point; the socket's decoder never splits one
  type Text = seq<Char>

  const NEWLINE: Char := 10

  /** Bytes of a character in UTF-8. */
  function Width(c: Char): nat {
    if c < 0x80 then 1 else if c < 0x800 then 2 else if c < 0x10000 then 3 else 4
  }

  function Size(t: Text): nat {
    if t == [] then 0 else Size(t[..|t| - 1]) + Width(t[|t| - 1])
  }

  lemma {:induction false} SizeConcat(a: Text, b: Text)
    ensures Size(a + b) == Size(a) + Size(b)
    decreases |b|
  {
    if b == [] {
      assert a + b == a;
    } else {
      var front := b[..|b| - 1];
      assert (a + b)[..|a + b| - 1] == a + front;
      SizeConcat(a, front);
    }
  }

  // ---------------------------------------------------------------- the first line of a buffer

  /** White space to String.prototype.trim. */
  predicate Space(c: Char) {
    9 <= c <= 13 || c == 0x20 || c == 0xA0 || c == 0x1680 || 0x2000 <= c <= 0x200A || c == 0x2028 || c == 0x2029
    || c == 0x202F || c == 0x205F || c == 0x3000 || c == 0xFEFF
  }

  function TrimStart(t: Text): Text {
    if t != [] && Space(t[0]) then TrimStart(t[1..]) else t
  }

  function TrimEnd(t: Text): Text {
    if t != [] && Space(t[|t| - 1]) then TrimEnd(t[..|t| - 1]) else t
  }

  function FirstLine(t: Text): Text {
    if t == [] || t[0] == NEWLINE then [] else [t[0]] + FirstLine(t[1..])
  }

  /** The line that is parsed. */
  function Request(buffer: Text): Text {
    FirstLine(TrimEnd(TrimStart(buffer)))
  }

  predicate Blank(t: Text) {
    forall i :: 0 <= i < |t| ==> Space(t[i])
  }

  lemma {:induction false} TrimStartPrefix(seg: Text, rest: Text)
    requires !Blank(seg)
    ensures TrimStart(seg + rest) == TrimStart(seg) + rest && !Blank(TrimStart(seg)) && !Space(TrimStart(seg)[0])
    ensures NEWLINE !in seg ==> NEWLINE !in TrimStart(seg)
    decreases |seg|
  {
    if Space(seg[0]) {
      assert (seg + rest)[1..] == seg[1..] + rest;
      assert forall i :: 0 < i < |seg| ==> seg[i] == seg[1..][i - 1];
      TrimStartPrefix(seg[1..], rest);
    }
  }

  lemma {:induction false} TrimEndSuffix(a: Text, b: Text)
    ensures TrimEnd(a + b) == if Blank(b) then TrimEnd(a) else a + TrimEnd(b)
    decreases |b|
  {
    if b == [] {
      assert a + b == a;
    } else {
      var front := b[..|b| - 1];
      assert (a + b)[..|a + b| - 1] == a + front;
      assert b == front + [b[|b| - 1]];
      if Space(b[|b| - 1]) {
        TrimEndSuffix(a, front);
      }
    }
  }

  lemma {:induction false} TrimEndPrefix(t: Text)
    ensures |TrimEnd(t)| <= |t| && TrimEnd(t) == t[..|TrimEnd(t)|] && TrimEnd(TrimEnd(t)) == TrimEnd(t)
    decreases |t|
  {
    if t != [] && Space(t[|t| - 1]) {
      TrimEndPrefix(t[..|t| - 1]);
    }
  }

  lemma {:induction false} BlankTrims(t: Text)
    ensures Blank(t) ==> TrimStart(t) == []
    decreases |t|
  {
    if t != [] {
      BlankTrims(t[1..]);
    }
  }

  lemma {:induction false} FirstLineOf(a: Text, rest: Text)
    requires NEWLINE !in a && (rest == [] || rest[0] == NEWLINE)
    ensures FirstLine(a + rest) == a
    decreases |a|
  {
    if a == [] {
      assert a + rest == rest;
    } else {
      assert (a + rest)[1..] == a[1..] + rest;
      FirstLineOf(a[1..], rest);
    }
  }

  /** Nothing is requested exactly by a blank buffer. */
  lemma NoRequestIffBlank(buffer: Text)
    ensures Request(buffer) == [] <==> Blank(buffer)
  {
    if Blank(buffer) {
      BlankTrims(buffer);
    } else {
      assert buffer + [] == buffer;
      TrimStartPrefix(buffer, []);
      var t := TrimStart(buffer);
      assert t == [t[0]] + t[1..];
      TrimEndSuffix([t[0]], t[1..]);
      TrimEndSuffix([], [t[0]]);
      hide TrimStart;
    }
  }

  /** A nonblank first line of the buffer is requested, whatever follows it, up to white space at its ends. */
  lemma RequestOfLine(seg: Text, rest: Text)
    requires NEWLINE !in seg && !Blank(seg) && (rest == [] || rest[0] == NEWLINE)
    ensures Request(seg + rest) != [] && TrimEnd(Request(seg + rest)) == TrimEnd(TrimStart(seg))
    ensures Blank(rest) ==> Request(seg + rest) == TrimEnd(TrimStart(seg))
  {
    TrimStartPrefix(seg, rest);
    var a := TrimStart(seg);
    TrimEndSuffix(a, rest);
    TrimEndPrefix(a);
    if Blank(rest) {
      FirstLineOf(TrimEnd(a), []);
      assert TrimEnd(a) + [] == TrimEnd(a);
    } else {
      TrimEndPrefix(rest);
      TrimEndSuffix([rest[0]], rest[1..]);
      assert rest == [rest[0]] + rest[1..];
      FirstLineOf(a, TrimEnd(rest));
    }
    assert seg == (seg + rest)[..|seg|];
    assert Blank(seg + rest) ==> Blank(seg);
    NoRequestIffBlank(seg + rest);
  }

  /** If something that is not blank follows the line, the white space at its end stays. */
  lemma WholeLine(seg: Text, rest: Text)
    requires NEWLINE !in seg && !Blank(seg) && rest != [] && rest[0] == NEWLINE && !Blank(rest)
    ensures Request(seg + rest) == TrimStart(seg)
  {
    TrimStartPrefix(seg, rest);
    var a := TrimStart(seg);
    TrimEndSuffix(a, rest);
    TrimEndSuffix([rest[0]], rest[1..]);
    assert rest == [rest[0]] + rest[1..];
    FirstLineOf(a, TrimEnd(rest));
  }

  // ---------------------------------------------------------------- the callbacks of a connection

  /** What a connection does once: refuse the payload as too large, or process the buffer. */
  datatype Action = Refuse | Process(buffer: Text)

  datatype Conn = Conn(buffer: Text, payloadBytes: nat, handled: bool, actions: seq<Action>)

  const OPENED := Conn([], 0, false, [])

  function Data(c: Conn, chunk: Text, max: nat): Conn {
    if c.handled then c
    else
      var bytes := c.payloadBytes + Size(chunk);
      if bytes > max then c.(payloadBytes := bytes, handled := true, actions := c.actions + [Refuse])
      else
        var buffer := c.buffer + chunk;
        if NEWLINE in buffer then Conn(buffer, bytes, true, c.actions + [Process(buffer)])
        else Conn(buffer, bytes, false, c.actions)
  }

  function End(c: Conn): Conn {
    if c.handled then c else c.(handled := true, actions := c.actions + [Process(c.buffer)])
  }

  function Feed(chunks: seq<Text>, n: nat, max: nat): Conn
    requires n <= |chunks|
  {
    if n == 0 then OPENED else Data(Feed(chunks, n - 1, max), chunks[n - 1], max)
  }

  function Joined(chunks: seq<Text>, n: nat): Text
    requires n <= |chunks|
  {
    if n == 0 then [] else Joined(chunks, n - 1) + chunks[n - 1]
  }

  /** The connection is still open after n chunks: they fit, and contain no newline. */
  predicate Waiting(chunks: seq<Text>, n: nat, max: nat)
    requires n <= |chunks|
  {
    Size(Joined(chunks, n)) <= max && NEWLINE !in Joined(chunks, n)
  }

  function ActionAt(text: Text, max: nat): Action {
    if Size(text) > max then Refuse else Process(text)
  }

  /** The chunk that decides is the first one up to which there is too much text or a newline. */
  lemma {:induction false} FeedShape(chunks: seq<Text>, n: nat, max: nat) returns (k: nat)
    requires n <= |chunks|
    ensures k <= n && forall j :: 0 <= j < k ==> Waiting(chunks, j, max)
    ensures var c := Feed(chunks, n, max);
      if c.handled then 0 < k && !Waiting(chunks, k, max) && c.actions == [ActionAt(Joined(chunks, k), max)]
      else k == n && Waiting(chunks, n, max) && c == Conn(Joined(chunks, n), Size(Joined(chunks, n)), false, [])
  {
    k := n;
    if n > 0 {
      k := FeedShape(chunks, n - 1, max);
      if !Feed(chunks, n - 1, max).handled {
        SizeConcat(Joined(chunks, n - 1), chunks[n - 1]);
        k := n;
      }
    }
    hide Size;
  }

  /** What the connection does, given all chunks and then the end of the stream. */
  function Final(chunks: seq<Text>, max: nat): seq<Action> {
    End(Feed(chunks, |chunks|, max)).actions
  }

  /** Whatever arrives, one buffer is processed or the payload is refused, and a processed buffer fits. */
  lemma OneBoundedAction(chunks: seq<Text>, max: nat) returns (k: nat)
    ensures k <= |chunks| && Final(chunks, max) == [ActionAt(Joined(chunks, k), max)]
    ensures (forall j :: 0 <= j < k ==> Waiting(chunks, j, max)) && (k == |chunks| || !Waiting(chunks, k, max))
  {
    k := FeedShape(chunks, |chunks|, max);
    hide Size;
  }

  // ---------------------------------------------------------------- serialized envelopes

  /** A line of JSON text for an object: it starts and ends with a brace. */
  predicate EnvelopeLine(line: Text) {
    |line| >= 2 && line[0] == 0x7B && line[|line| - 1] == 0x7D && NEWLINE !in line
  }

  lemma {:induction false} JoinedPrefix(chunks: seq<Text>, k: nat, n: nat)
    requires k <= n <= |chunks|
    ensures Joined(chunks, k) <= Joined(chunks, n) && Size(Joined(chunks, k)) <= Size(Joined(chunks, n))
    decreases n
  {
    if k < n {
      JoinedPrefix(chunks, k, n - 1);
      SizeConcat(Joined(chunks, n - 1), chunks[n - 1]);
      hide Size;
    }
  }

  lemma WaitingUnlessAll(chunks: seq<Text>, k: nat, max: nat, line: Text)
    requires k <= |chunks| && Joined(chunks, |chunks|) == line + [NEWLINE] && NEWLINE !in line
    requires |Joined(chunks, k)| < |line| + 1
    ensures NEWLINE !in Joined(chunks, k)
  {
    JoinedPrefix(chunks, k, |chunks|);
    assert forall i :: 0 <= i < |Joined(chunks, k)| ==> Joined(chunks, k)[i] == line[i];
    hide Joined;
  }

  lemma RequestOfEnvelope(line: Text)
    requires EnvelopeLine(line)
    ensures Request(line + [NEWLINE]) == line
  {
    assert !Space(line[0]) && !Space(line[|line| - 1]);
    RequestOfLine(line, [NEWLINE]);
  }

  /**
   * However a serialized envelope is split, it is processed exactly when it fits, and then the
   * line parsed is the one that was sent; otherwise it is refused and never parsed.
   */
  lemma EnvelopeServedOnceIffItFits(chunks: seq<Text>, max: nat, line: Text)
    requires EnvelopeLine(line) && Joined(chunks, |chunks|) == line + [NEWLINE]
    ensures Size(line + [NEWLINE]) <= max ==> Final(chunks, max) == [Process(line + [NEWLINE])] && Request(line + [NEWLINE]) == line
    ensures Size(line + [NEWLINE]) > max ==> Final(chunks, max) == [Refuse]
  {
    RequestOfEnvelope(line);
    var k := OneBoundedAction(chunks, max);
    JoinedPrefix(chunks, k, |chunks|);
    hide Size, Joined, Final, Request;
    if |Joined(chunks, k)| < |line| + 1 {
      WaitingUnlessAll(chunks, k, max, line);
    } else {
      assert Joined(chunks, k) == line + [NEWLINE];
    }
  }

  // ---------------------------------------------------------------- serving a request

  type EventId = nat

  /** What parsing a line gives: an exception, or an envelope with perhaps a token and a well-formed event. */
  datatype Parsed = Malformed | Envelope(token: Option<Text>, event: Option<EventId>)

  datatype Reply = Accepted | PayloadTooLarge | EmptyPayload | InvalidToken | InvalidEvent | Failed

  /** The configured token, how lines parse, and for which events the handler succeeds. */
  datatype Owner = Owner(authToken: Option<Text>, parse: Text -> Parsed, handles: EventId -> bool)

  predicate Admits(o: Owner, token: Option<Text>) {
    o.authToken.None? || o.authToken.value == [] || token == o.authToken
  }

  function ReplyTo(o: Owner, a: Action): Reply {
    match a
    case Refuse => PayloadTooLarge
    case Process(buffer) =>
      if Request(buffer) == [] then EmptyPayload
      else
        match o.parse(Request(buffer))
        case Malformed => Failed
        case Envelope(token, event) =>
          if !Admits(o, token) then InvalidToken
          else if event.None? then InvalidEvent
          else if o.handles(event.value) then Accepted
          else Failed
  }

  /** The event handed to the handler, if any. */
  function DeliveredBy(o: Owner, a: Action): Option<EventId> {
    if a.Refuse? || Request(a.buffer) == [] then None
    else
      match o.parse(Request(a.buffer))
      case Malformed => None
      case Envelope(token, event) => if Admits(o, token) then event else None
  }

  function Replies(o: Owner, actions: seq<Action>): seq<Reply> {
    seq(|actions|, i requires 0 <= i < |actions| => ReplyTo(o, actions[i]))
  }

  function Deliveries(o: Owner, actions: seq<Action>): seq<EventId> {
    if actions == [] then []
    else Deliveries(o, actions[..|actions| - 1]) + ToSeq(DeliveredBy(o, actions[|actions| - 1]))
  }

  // ---------------------------------------------------------------- when splitting does not matter

  /** White space of JSON (RFC 8259, section 2), a part of what trim removes. */
  predicate JsonSpace(c: Char) {
    c == 0x20 || c == 0x09 || c == NEWLINE || c == 0x0D
  }

  function JsonTrimEnd(t: Text): Text {
    if t != [] && JsonSpace(t[|t| - 1]) then JsonTrimEnd(t[..|t| - 1]) else t
  }

  predicate EndsInSpace(t: Text) {
    t != [] && Space(t[|t| - 1])
  }

  /** The parser ignores JSON white space at the end of a line, and rejects a line with other white space there. */
  ghost predicate ParsesJson(o: Owner) {
    forall t: Text :: o.parse(t) == (if EndsInSpace(JsonTrimEnd(t)) then Malformed else o.parse(JsonTrimEnd(t)))
  }

  /** What an action amounts to for such parsers. */
  datatype Meaning = TooLarge | Empty | Garbled | Line(text: Text)

  function MeaningOf(a: Action): Meaning {
    if a.Refuse? then TooLarge
    else if Request(a.buffer) == [] then Empty
    else LineMeaning(Request(a.buffer))
  }

  function LineMeaning(request: Text): Meaning {
    if EndsInSpace(JsonTrimEnd(request)) then Garbled else Line(JsonTrimEnd(request))
  }

  lemma {:induction false} JsonTrimEndIsStable(t: Text)
    ensures JsonTrimEnd(JsonTrimEnd(t)) == JsonTrimEnd(t)
  {
    if t != [] && JsonSpace(t[|t| - 1]) {
      JsonTrimEndIsStable(t[..|t| - 1]);
    }
  }

  /** The owner that accepts exactly the given line. */
  function Reader(line: Text): Owner {
    Owner(None, t => if !EndsInSpace(JsonTrimEnd(t)) && JsonTrimEnd(t) == line then Envelope(None, Some(0)) else Malformed, _ => true)
  }

  lemma ReaderParsesJson(line: Text)
    ensures ParsesJson(Reader(line))
  {
    forall t: Text
      ensures Reader(line).parse(t) == (if EndsInSpace(JsonTrimEnd(t)) then Malformed else Reader(line).parse(JsonTrimEnd(t)))
    {
      JsonTrimEndIsStable(t);
    }
  }

  /** Actions of the same meaning are answered alike and deliver the same, whoever the owner is. */
  lemma MeaningDecides(o: Owner, a: Action, b: Action)
    requires ParsesJson(o) && MeaningOf(a) == MeaningOf(b)
    ensures ReplyTo(o, a) == ReplyTo(o, b) && DeliveredBy(o, a) == DeliveredBy(o, b)
  {
    hide Request, JsonTrimEnd, EndsInSpace;
  }

  /** Actions of different meaning are answered differently by some owner. */
  lemma MeaningShows(a: Action, b: Action) returns (o: Owner)
    requires MeaningOf(a) != MeaningOf(b)
    ensures ParsesJson(o) && ReplyTo(o, a) != ReplyTo(o, b)
  {
    var line := if MeaningOf(a).Line? then MeaningOf(a).text else if MeaningOf(b).Line? then MeaningOf(b).text else [];
    o := Reader(line);
    ReaderParsesJson(line);
    hide Request, JsonTrimEnd, EndsInSpace, ParsesJson;
    ReaderReplies(line, a);
    ReaderReplies(line, b);
    hide Reader, ReplyTo, MeaningOf;
  }

  lemma ReaderReplies(line: Text, a: Action)
    ensures ReplyTo(Reader(line), a)
         == match MeaningOf(a) case TooLarge => PayloadTooLarge case Empty => EmptyPayload case Garbled => Failed
                               case Line(text) => if text == line then Accepted else Failed
  {
    hide Request, JsonTrimEnd, EndsInSpace;
  }

  function FirstNewline(t: Text): (i: nat)
    ensures i <= |t| && NEWLINE !in t[..i] && (i < |t| ==> t[i] == NEWLINE)
  {
    if t == [] || t[0] == NEWLINE then 0 else 1 + FirstNewline(t[1..])
  }

  /** All of the text is blank; or its first line is not, and ends in no white space but JSON's unless nothing follows. */
  predicate ClearLine(text: Text, i: nat)
    requires i <= |text|
  {
    Blank(text) || (!Blank(text[..i]) && (Blank(text[i..]) || JsonTrimEnd(text[..i]) == TrimEnd(text[..i])))
  }

  /** The text has no newline within the size limit, or it fits and its first line is clear. */
  predicate Robust(text: Text, max: nat) {
    var i := FirstNewline(text);
    i == |text| || Size(text[..i + 1]) > max || (Size(text) <= max && ClearLine(text, i))
  }

  function Expected(text: Text, max: nat): Meaning {
    if Size(text) > max then TooLarge
    else MeaningOf(Process(text))
  }

  /** However the text is split, every owner replies the same and the handler gets the same events. */
  ghost predicate SplittingIsInvisible(text: Text, max: nat) {
    forall chunks, other, o :: ParsesJson(o) && Joined(chunks, |chunks|) == text && Joined(other, |other|) == text ==>
      Alike(o, Final(chunks, max), Final(other, max))
  }

  predicate Alike(o: Owner, a: seq<Action>, b: seq<Action>) {
    Replies(o, a) == Replies(o, b) && Deliveries(o, a) == Deliveries(o, b)
  }

  lemma AlikeOne(o: Owner, a: Action, b: Action)
    ensures Alike(o, [a], [b]) <==> ReplyTo(o, a) == ReplyTo(o, b) && ToSeq(DeliveredBy(o, a)) == ToSeq(DeliveredBy(o, b))
  {
    hide ReplyTo, DeliveredBy;
    assert [a][..0] == [] && [b][..0] == [];
    assert Deliveries(o, [a]) == [] + ToSeq(DeliveredBy(o, a)) && Deliveries(o, [b]) == [] + ToSeq(DeliveredBy(o, b));
    assert Deliveries(o, [a]) == ToSeq(DeliveredBy(o, a)) && Deliveries(o, [b]) == ToSeq(DeliveredBy(o, b));
    assert Replies(o, [a]) == [ReplyTo(o, a)] && Replies(o, [b]) == [ReplyTo(o, b)];
  }

  lemma PrefixSize(a: Text, b: Text)
    requires a <= b
    ensures Size(a) <= Size(b)
  {
    SizeConcat(a, b[|a|..]);
    assert b == a + b[|a|..];
  }

  lemma NewlineInPrefix(text: Text, n: nat)
    requires n <= |text|
    ensures NEWLINE in text[..n] <==> FirstNewline(text) < n
  {
    var i := FirstNewline(text);
    if i < n {
      assert text[..n][i] == NEWLINE;
    } else {
      assert forall j :: 0 <= j < n ==> text[..n][j] == text[..i][j];
    }
  }

  // ---------------------------------------------------------------- white space at the end of a line

  lemma {:induction false} JsonTrimEndSuffix(a: Text, b: Text)
    requires !Blank(b)
    ensures JsonTrimEnd(a + b) == a + JsonTrimEnd(b)
    decreases |b|
  {
    var front := b[..|b| - 1];
    assert (a + b)[..|a + b| - 1] == a + front;
    assert b == front + [b[|b| - 1]];
    if JsonSpace(b[|b| - 1]) {
      JsonTrimEndSuffix(a, front);
    }
  }

  lemma {:induction false} TrimStartIsSuffix(t: Text) returns (w: Text)
    ensures t == w + TrimStart(t) && Blank(w)
  {
    if t != [] && Space(t[0]) {
      var v := TrimStartIsSuffix(t[1..]);
      w := [t[0]] + v;
    } else {
      w := [];
    }
  }

  /** The two ways to trim agree, or some white space that is not JSON's is left. */
  lemma {:induction false} TrimsAgreeOrGarbled(t: Text)
    ensures JsonTrimEnd(t) == TrimEnd(t) <==> !EndsInSpace(JsonTrimEnd(t))
  {
    if t != [] && JsonSpace(t[|t| - 1]) {
      TrimsAgreeOrGarbled(t[..|t| - 1]);
    } else if EndsInSpace(t) {
      TrimEndPrefix(t[..|t| - 1]);
    }
  }

  lemma {:induction false} TrimmedIsClear(t: Text)
    ensures !EndsInSpace(TrimEnd(t)) && JsonTrimEnd(TrimEnd(t)) == TrimEnd(t)
  {
    if t != [] && Space(t[|t| - 1]) {
      TrimmedIsClear(t[..|t| - 1]);
    }
  }

  /** Leading white space does not matter to how a line ends. */
  lemma TrimStartKeepsEnd(seg: Text)
    requires !Blank(seg)
    ensures JsonTrimEnd(seg) == TrimEnd(seg) <==> JsonTrimEnd(TrimStart(seg)) == TrimEnd(TrimStart(seg))
  {
    var w := TrimStartIsSuffix(seg);
    var a := TrimStart(seg);
    assert seg + [] == seg;
    TrimStartPrefix(seg, []);
    JsonTrimEndSuffix(w, a);
    TrimEndSuffix(w, a);
    hide TrimStart, TrimEnd, JsonTrimEnd;
    SamePrefix(w, JsonTrimEnd(a), TrimEnd(a));
  }

  lemma SamePrefix(w: Text, x: Text, y: Text)
    ensures w + x == w + y <==> x == y
  {
    assert (w + x)[|w|..] == x && (w + y)[|w|..] == y;
  }

  /** The meaning of a buffer with a first line that is not blank. */
  lemma MeaningOfLine(seg: Text, rest: Text)
    requires NEWLINE !in seg && !Blank(seg) && (rest == [] || rest[0] == NEWLINE)
    ensures MeaningOf(Process(seg + rest))
         == if Blank(rest) || JsonTrimEnd(seg) == TrimEnd(seg) then Line(TrimEnd(TrimStart(seg))) else Garbled
  {
    hide Request;
    RequestOfLine(seg, rest);
    TrimStartKeepsEnd(seg);
    TrimmedIsClear(TrimStart(seg));
    TrimsAgreeOrGarbled(TrimStart(seg));
    if !Blank(rest) {
      WholeLine(seg, rest);
    }
    hide TrimStart, TrimEnd, JsonTrimEnd, EndsInSpace;
  }

  /** Two prefixes that contain the first newline, of a text whose first line is clear, mean the same. */
  lemma SameLineSameMeaning(text: Text, n: nat)
    requires FirstNewline(text) < n <= |text| && ClearLine(text, FirstNewline(text)) && !Blank(text)
    ensures MeaningOf(Process(text[..n])) == MeaningOf(Process(text))
  {
    hide Request, TrimEnd, TrimStart, JsonTrimEnd, Blank, FirstNewline, MeaningOf;
    var i := FirstNewline(text);
    var seg, part, rest := text[..i], text[i..n], text[i..];
    if Blank(rest) { BlankPart(rest, part); }
    SplitAtLine(text, i, n);
    MeaningOfLine(seg, part);
    MeaningOfLine(seg, rest);
  }

  lemma BlankPart(rest: Text, part: Text)
    requires part <= rest && Blank(rest)
    ensures Blank(part)
  {
  }

  lemma SplitAtLine(text: Text, i: nat, n: nat)
    requires i < n <= |text|
    ensures text[..n] == text[..i] + text[i..n] && text == text[..i] + text[i..] && text[i..n] <= text[i..]
    ensures text[i..n][0] == text[i] == text[i..][0]
  {
  }

  lemma BlankMeansEmpty(text: Text)
    ensures MeaningOf(Process(text)) == Empty <==> Blank(text)
  {
    NoRequestIffBlank(text);
    hide Request;
  }

  lemma RobustMeaning(chunks: seq<Text>, text: Text, max: nat)
    requires Robust(text, max) && Joined(chunks, |chunks|) == text
    ensures |Final(chunks, max)| == 1 && MeaningOf(Final(chunks, max)[0]) == Expected(text, max)
  {
    var k := OneBoundedAction(chunks, max);
    var part, i := Joined(chunks, k), FirstNewline(text);
    JoinedPrefix(chunks, k, |chunks|);
    assert part == text[..|part|];
    NewlineInPrefix(text, |part|);
    hide Size, Joined, Final, FirstNewline, MeaningOf, ClearLine;
    PrefixSize(part, text);
    if i < |part| {
      PrefixSize(text[..i + 1], part);
      PrefixSize(text[..i + 1], text);
      if Size(text) <= max {
        MeaningOfPart(text, |part|);
      }
    } else {
      assert k == |chunks| || Size(part) > max;
      if i < |text| {
        PrefixSize(text[..i + 1], text);
      }
    }
    assert MeaningOf(Refuse) == TooLarge by { RefusedMeansTooLarge(); }
  }

  lemma RefusedMeansTooLarge()
    ensures MeaningOf(Refuse) == TooLarge
  {
  }

  lemma MeaningOfPart(text: Text, n: nat)
    requires FirstNewline(text) < n <= |text| && ClearLine(text, FirstNewline(text))
    ensures MeaningOf(Process(text[..n])) == MeaningOf(Process(text))
  {
    if Blank(text) {
      BlankMeansEmpty(text);
      BlankMeansEmpty(text[..n]);
    } else {
      SameLineSameMeaning(text, n);
    }
  }

  lemma OneChunk(text: Text, max: nat)
    ensures Joined([text], 1) == text && Final([text], max) == [ActionAt(text, max)]
  {
    assert Joined([text], 0) == [];
    assert [] + text == text;
    assert Feed([text], 0, max) == OPENED;
  }

  lemma TwoChunks(first: Text, rest: Text, max: nat)
    requires NEWLINE in first && Size(first) <= max
    ensures Joined([first, rest], 2) == first + rest && Final([first, rest], max) == [Process(first)]
  {
    var chunks := [first, rest];
    assert Joined(chunks, 0) == [] && [] + first == first;
    assert Joined(chunks, 1) == first;
    assert Feed(chunks, 1, max) == Conn(first, Size(first), true, [Process(first)]);
    hide Size;
  }

  /** Exactly these texts get the same replies and deliveries however the stream is split into chunks. */
  lemma SplittingIsInvisibleIff(text: Text, max: nat)
    ensures SplittingIsInvisible(text, max) <==> Robust(text, max)
  {
    if Robust(text, max) {
      forall chunks, other, o | ParsesJson(o) && Joined(chunks, |chunks|) == text && Joined(other, |other|) == text
        ensures Alike(o, Final(chunks, max), Final(other, max))
      {
        RobustIsAlike(chunks, other, text, max, o);
      }
    } else {
      SplittingIsVisible(text, max);
    }
  }

  lemma RobustIsAlike(chunks: seq<Text>, other: seq<Text>, text: Text, max: nat, o: Owner)
    requires Robust(text, max) && ParsesJson(o) && Joined(chunks, |chunks|) == text && Joined(other, |other|) == text
    ensures Alike(o, Final(chunks, max), Final(other, max))
  {
    RobustMeaning(chunks, text, max);
    RobustMeaning(other, text, max);
    hide Final, Joined, MeaningOf, ReplyTo, DeliveredBy, Alike, ParsesJson, Robust, Expected;
    var a, b := Final(chunks, max)[0], Final(other, max)[0];
    MeaningDecides(o, a, b);
    AlikeOne(o, a, b);
    assert Final(chunks, max) == [a] && Final(other, max) == [b];
  }

  lemma SplittingIsVisible(text: Text, max: nat)
    requires !Robust(text, max)
    ensures !SplittingIsInvisible(text, max)
  {
    var first := FirstLineDiffers(text, max);
    hide Robust, Size, Joined, Final, MeaningOf, SplittingIsInvisible, Alike, ReplyTo, DeliveredBy, ParsesJson;
    var rest := text[|first|..];
    assert text == first + rest;
    OneChunk(text, max);
    TwoChunks(first, rest, max);
    var o := MeaningShows(ActionAt(text, max), Process(first));
    AlikeOne(o, ActionAt(text, max), Process(first));
    if SplittingIsInvisible(text, max) {
      InvisibleFor(text, max, [text], [first, rest], o);
    }
  }

  lemma InvisibleFor(text: Text, max: nat, chunks: seq<Text>, other: seq<Text>, o: Owner)
    requires SplittingIsInvisible(text, max) && ParsesJson(o) && Joined(chunks, |chunks|) == text && Joined(other, |other|) == text
    ensures Alike(o, Final(chunks, max), Final(other, max))
  {
    hide Joined, Final, Alike, ParsesJson;
  }

  /** The text up to its first newline, taken as a chunk of its own, means something else than the text. */
  lemma FirstLineDiffers(text: Text, max: nat) returns (first: Text)
    requires !Robust(text, max)
    ensures first <= text && NEWLINE in first && Size(first) <= max
    ensures MeaningOf(Process(first)) != MeaningOf(ActionAt(text, max))
  {
    hide Size, MeaningOf, TrimEnd, JsonTrimEnd;
    var i := FirstNewline(text);
    first := text[..i + 1];
    assert first[i] == NEWLINE;
    BlankMeansEmpty(text);
    BlankMeansEmpty(first);
    RefusedMeansTooLarge();
    ProcessedIsNotTooLarge(first);
    assert Blank(text[..i]) ==> Blank(first) by { assert forall j :: 0 <= j < i ==> first[j] == text[..i][j]; }
    if Size(text) <= max && !Blank(text[..i]) {
      assert first == text[..i] + [NEWLINE] && text == text[..i] + text[i..];
      MeaningOfLine(text[..i], [NEWLINE]);
      MeaningOfLine(text[..i], text[i..]);
    }
  }

  lemma ProcessedIsNotTooLarge(text: Text)
    ensures MeaningOf(Process(text)) != TooLarge
  {
  }

  // ---------------------------------------------------------------- delivery of an event

  /** An admitted event sent as an envelope reaches the handler once if the envelope fits, and never otherwise. */
  lemma EventDeliveredOnceIffItFits(chunks: seq<Text>, max: nat, o: Owner, line: Text, event: EventId)
    requires EnvelopeLine(line) && Joined(chunks, |chunks|) == line + [NEWLINE]
    requires o.parse(line).Envelope? && o.parse(line).event == Some(event)
    requires o.authToken == None || o.authToken == Some([]) || o.authToken == o.parse(line).token
    ensures Deliveries(o, Final(chunks, max)) == if Size(line + [NEWLINE]) <= max then [event] else []
    ensures Replies(o, Final(chunks, max))
         == [if Size(line + [NEWLINE]) > max then PayloadTooLarge else if o.handles(event) then Accepted else Failed]
  {
    EnvelopeServedOnceIffItFits(chunks, max, line);
    var a := Final(chunks, max)[0];
    assert Final(chunks, max)[..0] == [];
    hide Final, Size, Joined, Request;
    assert Deliveries(o, []) == [];
  }

  class Connection {
    const owner: Owner
    const maxPayloadBytes: nat
    var buffer: Text
    var payloadBytes: nat
    var handled: bool
    var replies: seq<Reply>
    var delivered: seq<EventId>
    ghost var actions: seq<Action>

    ghost function View(): Conn
      reads this
    {
      Conn(buffer, payloadBytes, handled, actions)
    }

    ghost predicate Valid()
      reads this
    {
      replies == Replies(owner, actions) && delivered == Deliveries(owner, actions)
    }

    constructor (owner: Owner, maxPayloadBytes: nat)
      ensures Valid() && View() == OPENED && this.owner == owner && this.maxPayloadBytes == maxPayloadBytes
    {
      this.owner, this.maxPayloadBytes := owner, maxPayloadBytes;
      buffer, payloadBytes, handled := [], 0, false;
      replies, delivered, actions := [], [], [];
    }

    method OnData(chunk: Text)
      requires Valid()
      modifies this
      ensures Valid() && View() == Data(old(View()), chunk, maxPayloadBytes)
    {
      hide Request, Replies, Deliveries, Size;
      if handled {
        return;
      }
      payloadBytes := payloadBytes + Size(chunk);
      if payloadBytes > maxPayloadBytes {
        handled := true;
        Acts(Refuse);
        replies := replies + [PayloadTooLarge];
        actions := actions + [Refuse];
        return;
      }
      buffer := buffer + chunk;
      if NEWLINE !in buffer {
        return;
      }
      handled := true;
      ProcessIncomingEnvelope();
    }

    method OnEnd()
      requires Valid()
      modifies this
      ensures Valid() && View() == End(old(View()))
    {
      if !handled {
        handled := true;
        ProcessIncomingEnvelope();
      }
    }

    lemma Acts(a: Action)
      ensures Replies(owner, actions + [a]) == Replies(owner, actions) + [ReplyTo(owner, a)]
      ensures Deliveries(owner, actions + [a]) == Deliveries(owner, actions) + ToSeq(DeliveredBy(owner, a))
      ensures a == Refuse ==> ToSeq(DeliveredBy(owner, a)) == [] && delivered + [] == delivered
    {
      assert (actions + [a])[..|actions|] == actions;
    }

    method ProcessIncomingEnvelope()
      requires Valid()
      modifies this`replies, this`delivered, this`actions
      ensures Valid() && actions == old(actions) + [Process(buffer)]
    {
      hide Request, Replies, Deliveries;
      Acts(Process(buffer));
      actions := actions + [Process(buffer)];
      var firstLine := Request(buffer);
      if firstLine == [] {
        replies := replies + [EmptyPayload];
        assert delivered + [] == delivered;
        return;
      }
      var envelope := owner.parse(firstLine);
      assert delivered + [] == delivered;
      match envelope
      case Malformed =>
        replies := replies + [Failed];
      case Envelope(token, event) =>
        if !Admits(owner, token) {
          replies := replies + [InvalidToken];
          return;
        }
        if event.None? {
          replies := replies + [InvalidEvent];
          return;
        }
        delivered := delivered + [event.value];
        replies := replies + [if owner.handles(event.value) then Accepted else Failed];
    }
  }
}
