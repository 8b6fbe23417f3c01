/**
 * What a client of the relay server is answered, over whole streams in any split: the token, the
 * shape of the event and the handler decide, and only a request with the right token is served.
 */
module RelayServing {
  import opened Options
  import opened RelayFraming

  // ---------------------------------------------------------------- sizes are bytes

  type Byte = b: nat | b < 0x100

  /** The UTF-8 bytes of a code point (RFC 3629, section 3). */
  function Utf8(c: Char): seq<Byte>
    requires c < 0x110000
  {
    if c < 0x80 then [c]
    else if c < 0x800 then [0xC0 + c / 0x40, 0x80 + c % 0x40]
    else if c < 0x10000 then [0xE0 + c / 0x1000, 0x80 + c / 0x40 % 0x40, 0x80 + c % 0x40]
    else [0xF0 + c / 0x40000, 0x80 + c / 0x1000 % 0x40, 0x80 + c / 0x40 % 0x40, 0x80 + c % 0x40]
  }

  function Encode(t: Text): seq<Byte>
    requires forall i :: 0 <= i < |t| ==> t[i] < 0x110000
  {
    if t == [] then [] else Encode(t[..|t| - 1]) + Utf8(t[|t| - 1])
  }

  /** The size that is compared with the limit is the number of bytes on the wire. */
  lemma {:induction false} SizeIsBytes(t: Text)
    requires forall i :: 0 <= i < |t| ==> t[i] < 0x110000
    ensures Size(t) == |Encode(t)|
  {
    if t != [] {
      SizeIsBytes(t[..|t| - 1]);
    }
  }

  // ---------------------------------------------------------------- the answer to a stream

  /** The first chunks that complete a line or exceed the limit, or else all chunks. */
  ghost predicate Decisive(chunks: seq<Text>, max: nat, k: nat) {
    && k <= |chunks|
    && (forall j :: 0 <= j < k ==> NEWLINE !in Joined(chunks, j) && Size(Joined(chunks, j)) <= max)
    && (k == |chunks| || NEWLINE in Joined(chunks, k) || Size(Joined(chunks, k)) > max)
  }

  lemma OneIsDecisive(chunks: seq<Text>, max: nat, k: nat, n: nat)
    requires Decisive(chunks, max, k) && Decisive(chunks, max, n)
    ensures k == n
  {
    hide Size, Joined;
  }

  /** The buffer that is processed, if the payload is not refused. */
  ghost predicate Processes(chunks: seq<Text>, max: nat, buffer: Text) {
    exists k :: Decisive(chunks, max, k) && Joined(chunks, k) == buffer && Size(buffer) <= max
  }

  ghost predicate TokenFits(o: Owner, token: Option<Text>) {
    forall secret :: o.authToken == Some(secret) && secret != [] ==> token == Some(secret)
  }

  /** What a processed line leads to: the answer, and the events handed over. */
  ghost predicate Answered(o: Owner, line: Text, reply: Reply, delivered: seq<EventId>) {
    match o.parse(line)
    case Malformed => reply == Failed && delivered == []
    case Envelope(token, event) =>
      if !TokenFits(o, token) then reply == InvalidToken && delivered == []
      else if event == None then reply == InvalidEvent && delivered == []
      else delivered == [event.value] && reply == if o.handles(event.value) then Accepted else Failed
  }

  lemma OneAnswer(o: Owner, a: Action)
    ensures Replies(o, [a]) == [ReplyTo(o, a)] && Deliveries(o, [a]) == ToSeq(DeliveredBy(o, a))
  {
    hide ReplyTo, DeliveredBy;
    assert [a][..0] == [];
    assert Deliveries(o, [a]) == [] + ToSeq(DeliveredBy(o, a));
  }

  lemma ProcessAnswers(o: Owner, buffer: Text)
    ensures Request(buffer) == [] ==> ReplyTo(o, Process(buffer)) == EmptyPayload && DeliveredBy(o, Process(buffer)) == None
    ensures Request(buffer) != [] ==>
      Answered(o, Request(buffer), ReplyTo(o, Process(buffer)), ToSeq(DeliveredBy(o, Process(buffer))))
  {
    hide Request;
    if Request(buffer) != [] {
      var parsed := o.parse(Request(buffer));
      if parsed.Envelope? {
        assert o.authToken.Some? && o.authToken.value != [] ==> (TokenFits(o, parsed.token) <==> parsed.token == Some(o.authToken.value));
      }
    }
  }

  /** Every stream gets one reply: a refusal, one for nothing but white space, or the answer to its first line. */
  lemma EveryStreamIsAnswered(chunks: seq<Text>, max: nat, o: Owner) returns (buffer: Option<Text>)
    ensures buffer.Some? <==> exists b :: Processes(chunks, max, b)
    ensures buffer.Some? ==> Processes(chunks, max, buffer.value)
    ensures |Replies(o, Final(chunks, max))| == 1
    ensures var reply, delivered := Replies(o, Final(chunks, max))[0], Deliveries(o, Final(chunks, max));
      if buffer.None? then reply == PayloadTooLarge && delivered == []
      else if Blank(buffer.value) then reply == EmptyPayload && delivered == []
      else Answered(o, Request(buffer.value), reply, delivered)
  {
    var k := OneBoundedAction(chunks, max);
    var text := Joined(chunks, k);
    forall j | 0 <= j < k ensures NEWLINE !in Joined(chunks, j) && Size(Joined(chunks, j)) <= max {
      assert Waiting(chunks, j, max);
    }
    assert k == |chunks| || !Waiting(chunks, k, max);
    assert Decisive(chunks, max, k);
    var a := ActionAt(text, max);
    OneAnswer(o, a);
    hide Size, Joined, Final, Request, Replies, Deliveries, Answered;
    if Size(text) <= max {
      buffer := Some(text);
      ProcessAnswers(o, text);
      NoRequestIffBlank(text);
      assert Processes(chunks, max, text);
    } else {
      buffer := None;
      forall n | Decisive(chunks, max, n) ensures n == k { OneIsDecisive(chunks, max, k, n); }
      RefusedDeliversNothing(o);
    }
  }

  lemma RefusedDeliversNothing(o: Owner)
    ensures ReplyTo(o, Refuse) == PayloadTooLarge && DeliveredBy(o, Refuse) == None
  {
  }

  // ---------------------------------------------------------------- envelopes and tokens

  /** However an envelope line that fits is split, it gets the answer that its token, event and handler ask for. */
  lemma EnvelopeIsAnswered(chunks: seq<Text>, max: nat, o: Owner, line: Text)
    requires EnvelopeLine(line) && Joined(chunks, |chunks|) == line + [NEWLINE] && Size(line + [NEWLINE]) <= max
    ensures |Replies(o, Final(chunks, max))| == 1
    ensures Answered(o, line, Replies(o, Final(chunks, max))[0], Deliveries(o, Final(chunks, max)))
  {
    EnvelopeServedOnceIffItFits(chunks, max, line);
    OneAnswer(o, Process(line + [NEWLINE]));
    ProcessAnswers(o, line + [NEWLINE]);
    hide Final, Request, Replies, Deliveries, Answered, Size, Joined;
  }

  /** A wrong or missing token: nothing runs, and the reply says so. */
  lemma WrongTokenIsRefused(chunks: seq<Text>, max: nat, o: Owner, line: Text, secret: Text)
    requires EnvelopeLine(line) && Joined(chunks, |chunks|) == line + [NEWLINE] && Size(line + [NEWLINE]) <= max
    requires o.authToken == Some(secret) && secret != [] && o.parse(line).Envelope? && o.parse(line).token != Some(secret)
    ensures Replies(o, Final(chunks, max)) == [InvalidToken] && Deliveries(o, Final(chunks, max)) == []
  {
    EnvelopeIsAnswered(chunks, max, o, line);
    hide Final, Replies, Deliveries, Size, Joined;
  }

  /** With the right token, or where none is configured, a well-formed event runs whatever its token is. */
  lemma RightTokenIsServed(chunks: seq<Text>, max: nat, o: Owner, line: Text, token: Option<Text>, event: EventId)
    requires EnvelopeLine(line) && Joined(chunks, |chunks|) == line + [NEWLINE] && Size(line + [NEWLINE]) <= max
    requires o.parse(line) == Envelope(token, Some(event))
    requires o.authToken == None || o.authToken == Some([]) || o.authToken == token
    ensures Deliveries(o, Final(chunks, max)) == [event]
    ensures Replies(o, Final(chunks, max)) == [if o.handles(event) then Accepted else Failed]
  {
    EnvelopeIsAnswered(chunks, max, o, line);
    hide Final, Replies, Deliveries, Size, Joined;
  }

  /** Whatever a client sends, an event runs only if the request that carries it has the configured token. */
  lemma OnlyTheTokenDelivers(chunks: seq<Text>, max: nat, o: Owner, secret: Text) returns (buffer: Text)
    requires o.authToken == Some(secret) && secret != [] && Deliveries(o, Final(chunks, max)) != []
    ensures Processes(chunks, max, buffer) && o.parse(Request(buffer)).Envelope? && o.parse(Request(buffer)).token == Some(secret)
    ensures o.parse(Request(buffer)).event.Some? && Deliveries(o, Final(chunks, max)) == [o.parse(Request(buffer)).event.value]
  {
    var b := EveryStreamIsAnswered(chunks, max, o);
    buffer := b.value;
    hide Final, Replies, Deliveries, Size, Joined, Request, Processes;
  }
}
