/**
 * Keys and their parts: what a session key says segment by segment, and which routes share a
 * route key.
 */
module RouteKeys {
  import opened Options
  import opened SessionKeys
  import opened SessionRecords
  import opened RouteHistory

  // ---------------------------------------------------------------- splitting what was joined

  lemma {:induction false} SplitOne(s: string, c: char)
    requires c !in s
    ensures Split(s, c) == [s]
  {
    assert IndexOf(s, c) == |s|;
  }

  lemma {:induction false} SplitJoin(segments: seq<string>, c: char)
    requires segments != [] && forall i :: 0 <= i < |segments| ==> c !in segments[i]
    ensures Split(Join(segments, c), c) == segments
  {
    if |segments| == 1 {
      SplitOne(segments[0], c);
    } else {
      SplitJoin(segments[1..], c);
      SplitCons(segments[0], c, Join(segments[1..], c));
      assert segments == [segments[0]] + segments[1..];
    }
  }

  // ---------------------------------------------------------------- session keys

  /** The segment, if there is one. */
  function Segment(segments: seq<string>, i: nat): Option<string> {
    if |segments| > i then Some(segments[i]) else None
  }

  /**
   * A key made of colon-free segments: agent:<agent>:<scope>, or agent:<agent>:<provider>:
   * <surface>:<account>:<scope>:<token>, where later segments may be missing. Other keys say nothing.
   */
  lemma KeySegments(segments: seq<string>)
    requires segments != [] && (forall i :: 0 <= i < |segments| ==> ':' !in segments[i]) && NonBlank(Join(segments, ':'))
    ensures ParseSessionKey(Join(segments, ':')).Some? && SaysSegments(ParseSessionKey(Join(segments, ':')).value, Join(segments, ':'), segments)
  {
    SplitJoin(segments, ':');
    ParsedBySegments(Join(segments, ':'), segments);
    hide SaysSegments, ParseSessionKey, Join, NonBlank;
  }

  lemma ParsedBySegments(key: string, segments: seq<string>)
    requires segments != [] && Split(key, ':') == segments && NonBlank(key)
    ensures ParseSessionKey(key).Some? && SaysSegments(ParseSessionKey(key).value, key, segments)
  {
    hide NonBlank, Split;
  }

  ghost predicate SaysSegments(parsed: ParsedSessionKey, key: string, segments: seq<string>)
    requires segments != []
  {
    if segments[0] != "agent" || |segments| < 2 then parsed == ParsedSessionKey(key, None, None, None, None, None, None, None, false)
    else if |segments| == 3 then
      parsed == ParsedSessionKey(key, Some(segments[1]), None, None, None, Some(segments[2]), None, None, false)
    else
      && parsed.raw == key && parsed.agentId == Some(segments[1])
      && parsed.provider == Segment(segments, 2) && parsed.surface == Segment(segments, 3)
      && parsed.accountId == Segment(segments, 4) && parsed.scope == Segment(segments, 5) && parsed.threadToken == Segment(segments, 6)
      && (parsed.isThreadScoped <==> |segments| > 6 && (segments[5] == "thread" || segments[5] == "topic") && NonBlank(segments[6]))
  }

  /** Every key has such segments. */
  lemma HasSegments(key: string) returns (segments: seq<string>)
    ensures segments != [] && (forall i :: 0 <= i < |segments| ==> ':' !in segments[i]) && Join(segments, ':') == key
  {
    segments := Split(key, ':');
    JoinSplit(key, ':');
  }

  // ---------------------------------------------------------------- route keys

  /** The field's value, unless it is blank. */
  function Told(r: Route, f: RouteField): Option<string> {
    if NonBlankOption(FieldOf(r, f)) then FieldOf(r, f) else None
  }

  ghost predicate SameTelling(a: Route, b: Route) {
    forall f :: TellsApart(f) ==> Told(a, f) == Told(b, f)
  }

  predicate BarFree(r: Route) {
    forall f :: TellsApart(f) && Told(r, f).Some? ==> '|' !in Told(r, f).value
  }

  function NameOf(f: RouteField): string
    requires TellsApart(f)
  {
    match f
    case Provider => "provider"
    case Surface => "surface"
    case Account => "accountId"
    case Channel => "channelId"
    case Conversation => "conversationId"
    case Thread => "threadId"
  }

  function Part(r: Route, f: RouteField): seq<string>
    requires TellsApart(f)
  {
    if Told(r, f).Some? then [NameOf(f) + "=" + Told(r, f).value] else []
  }

  function Parts(r: Route): seq<string> {
    Part(r, Provider) + Part(r, Surface) + Part(r, Account) + Part(r, Channel) + Part(r, Conversation) + Part(r, Thread)
  }

  lemma KeyOfParts(r: Route)
    ensures BuildRouteKey(Some(r)) == if Parts(r) == [] then None else Some(Join(Parts(r), '|'))
  {
    hide NonBlank, Join;
    assert RoutePart("provider", r.provider) == Part(r, Provider) && RoutePart("surface", r.surface) == Part(r, Surface);
    assert RoutePart("accountId", r.accountId) == Part(r, Account) && RoutePart("channelId", r.channelId) == Part(r, Channel);
    assert RoutePart("conversationId", r.conversationId) == Part(r, Conversation) && RoutePart("threadId", r.threadId) == Part(r, Thread);
    hide Part, RoutePart;
  }

  lemma InParts(r: Route, s: string)
    ensures s in Parts(r) <==> exists f :: TellsApart(f) && s in Part(r, f)
  {
    hide Part;
    var a, b, c := Part(r, Provider), Part(r, Surface), Part(r, Account);
    var d, e, g := Part(r, Channel), Part(r, Conversation), Part(r, Thread);
    assert s in Parts(r) <==> s in a || s in b || s in c || s in d || s in e || s in g;
  }

  lemma NamesDiffer(f: RouteField, g: RouteField, x: string, y: string)
    requires TellsApart(f) && TellsApart(g) && NameOf(f) + "=" + x == NameOf(g) + "=" + y
    ensures f == g && x == y
  {
    var s, u := NameOf(f) + "=" + x, NameOf(g) + "=" + y;
    assert s[0] == NameOf(f)[0] && s[1] == NameOf(f)[1] && u[0] == NameOf(g)[0] && u[1] == NameOf(g)[1];
    assert x == s[|NameOf(f)| + 1..] && y == u[|NameOf(g)| + 1..];
  }

  lemma PartsTell(a: Route, b: Route)
    requires Parts(a) == Parts(b)
    ensures SameTelling(a, b)
  {
    hide Parts, NonBlank;
    forall f | TellsApart(f) ensures Told(a, f) == Told(b, f) {
      if Told(a, f).Some? { PartTells(a, b, f); }
      if Told(b, f).Some? { PartTells(b, a, f); }
    }
  }

  lemma PartTells(a: Route, b: Route, f: RouteField)
    requires TellsApart(f) && Parts(a) == Parts(b) && Told(a, f).Some?
    ensures Told(b, f) == Told(a, f)
  {
    hide Parts, NonBlank, Told, NameOf;
    var s := NameOf(f) + "=" + Told(a, f).value;
    assert s in Part(a, f);
    InParts(a, s);
    InParts(b, s);
    var g :| TellsApart(g) && s in Part(b, g);
    NamesDiffer(f, g, Told(a, f).value, Told(b, g).value);
  }

  lemma PartsAreBarFree(r: Route)
    requires BarFree(r)
    ensures forall i :: 0 <= i < |Parts(r)| ==> '|' !in Parts(r)[i]
  {
    hide Parts, Told;
    forall s | s in Parts(r) ensures '|' !in s {
      InParts(r, s);
      var f :| TellsApart(f) && s in Part(r, f);
      assert '|' !in NameOf(f);
    }
  }

  /** Routes that say the same in the telling fields share an entry; without bars in these fields no others do. */
  lemma RouteKeyIdentifies(a: Route, b: Route)
    ensures SameTelling(a, b) ==> BuildRouteKey(Some(a)) == BuildRouteKey(Some(b))
    ensures BarFree(a) && BarFree(b) ==> (BuildRouteKey(Some(a)) == BuildRouteKey(Some(b)) <==> SameTelling(a, b))
  {
    KeyOfParts(a);
    KeyOfParts(b);
    if SameTelling(a, b) {
      assert Told(a, Provider) == Told(b, Provider) && Told(a, Surface) == Told(b, Surface) && Told(a, Account) == Told(b, Account);
      assert Told(a, Channel) == Told(b, Channel) && Told(a, Conversation) == Told(b, Conversation) && Told(a, Thread) == Told(b, Thread);
      hide Told, NameOf;
      assert Parts(a) == Parts(b);
    }
    hide Parts, BuildRouteKey, Told, Join, SameTelling, BarFree;
    if BarFree(a) && BarFree(b) && BuildRouteKey(Some(a)) == BuildRouteKey(Some(b)) {
      if Parts(a) != [] && Parts(b) != [] {
        PartsAreBarFree(a);
        PartsAreBarFree(b);
        SplitJoin(Parts(a), '|');
        SplitJoin(Parts(b), '|');
      }
      PartsTell(a, b);
    }
  }

  // ---------------------------------------------------------------- when a route key is shared

  const TELLING: seq<RouteField> := [Provider, Surface, Account, Channel, Conversation, Thread]

  lemma TellingFields()
    ensures forall i :: 0 <= i < 6 ==> TellsApart(TELLING[i])
    ensures forall f :: TellsApart(f) ==> exists i :: 0 <= i < 6 && TELLING[i] == f
    ensures forall i, j :: 0 <= i < j < 6 ==> TELLING[i] != TELLING[j]
  {
    assert TELLING[0] == Provider && TELLING[1] == Surface && TELLING[2] == Account;
    assert TELLING[3] == Channel && TELLING[4] == Conversation && TELLING[5] == Thread;
  }

  /** The parts from the i-th telling field on. */
  function PartsFrom(r: Route, i: nat): seq<string>
    requires i <= 6
    decreases 6 - i
  {
    if i == 6 then [] else
      TellingFields();
      Part(r, TELLING[i]) + PartsFrom(r, i + 1)
  }

  lemma PartsAreFrom(r: Route)
    ensures Parts(r) == PartsFrom(r, 0)
  {
    hide Part;
    assert PartsFrom(r, 6) == [] && PartsFrom(r, 5) == Part(r, Thread) + [] && PartsFrom(r, 4) == Part(r, Conversation) + PartsFrom(r, 5);
    assert PartsFrom(r, 3) == Part(r, Channel) + PartsFrom(r, 4) && PartsFrom(r, 2) == Part(r, Account) + PartsFrom(r, 3);
    assert PartsFrom(r, 1) == Part(r, Surface) + PartsFrom(r, 2) && PartsFrom(r, 0) == Part(r, Provider) + PartsFrom(r, 1);
    var a, b, c := Part(r, Provider), Part(r, Surface), Part(r, Account);
    var d, e, g := Part(r, Channel), Part(r, Conversation), Part(r, Thread);
    assert a + b + c + d + e + g == a + (b + (c + (d + (e + (g + [])))));
  }

  /** Of the fields from the i-th on, the k-th is the first that is told. */
  ghost predicate FirstTold(r: Route, i: nat, k: nat) {
    i <= k < 6 && Told(r, TELLING[k]).Some? && forall j :: i <= j < k ==> Told(r, TELLING[j]).None?
  }

  lemma {:induction false} FirstPart(r: Route, i: nat) returns (k: nat)
    requires i <= 6 && PartsFrom(r, i) != []
    ensures FirstTold(r, i, k) && TellsApart(TELLING[k])
    ensures PartsFrom(r, i) == [NameOf(TELLING[k]) + "=" + Told(r, TELLING[k]).value] + PartsFrom(r, k + 1)
    decreases 6 - i
  {
    TellingFields();
    hide Told, NameOf;
    if Told(r, TELLING[i]).Some? {
      k := i;
    } else {
      assert PartsFrom(r, i) == PartsFrom(r, i + 1);
      k := FirstPart(r, i + 1);
    }
  }

  lemma {:induction false} NoParts(r: Route, i: nat)
    requires i <= 6
    ensures PartsFrom(r, i) == [] <==> forall j :: i <= j < 6 ==> Told(r, TELLING[j]).None?
    decreases 6 - i
  {
    TellingFields();
    hide Told, NameOf;
    if i < 6 {
      NoParts(r, i + 1);
    }
  }

  /** The route with only this field, or these two fields. */
  function With(r: Route, f: RouteField, value: string): Route
    requires TellsApart(f)
  {
    match f
    case Provider => r.(provider := Some(value))
    case Surface => r.(surface := Some(value))
    case Account => r.(accountId := Some(value))
    case Channel => r.(channelId := Some(value))
    case Conversation => r.(conversationId := Some(value))
    case Thread => r.(threadId := Some(value))
  }

  lemma WithTells(r: Route, f: RouteField, value: string)
    requires TellsApart(f)
    ensures forall g :: Told(With(r, f, value), g) == if g == f then (if NonBlank(value) then Some(value) else None) else Told(r, g)
    ensures forall g :: Told(EMPTY_ROUTE, g) == None
  {
    hide NonBlank;
  }

  /** Two fields are told, or the only one contains what looks like a later one. */
  ghost predicate Divisible(r: Route) {
    exists i, j :: 0 <= i < j < 6 && Told(r, TELLING[i]).Some? && (Told(r, TELLING[j]).Some? || Divides(Told(r, TELLING[i]).value, j))
  }

  ghost predicate Divides(value: string, j: nat)
    requires j < 6
  {
    TellsApart(TELLING[j]) &&
    exists x: string, y: string :: NonBlank(x) && NonBlank(y) && value == x + ['|'] + (NameOf(TELLING[j]) + "=" + y)
  }

  ghost predicate Shared(r: Route) {
    exists o :: BuildRouteKey(Some(o)) == BuildRouteKey(Some(r)) && !SameTelling(o, r)
  }

  lemma KeyFrom(r: Route)
    ensures BuildRouteKey(Some(r)) == if PartsFrom(r, 0) == [] then None else Some(Join(PartsFrom(r, 0), '|'))
  {
    KeyOfParts(r);
    PartsAreFrom(r);
    hide Parts, PartsFrom, Join, BuildRouteKey;
  }

  lemma OnePart(r: Route, i: nat)
    requires i < 6 && Told(r, TELLING[i]).Some? && forall j :: 0 <= j < 6 && j != i ==> Told(r, TELLING[j]).None?
    ensures TellsApart(TELLING[i]) && PartsFrom(r, 0) == [NameOf(TELLING[i]) + "=" + Told(r, TELLING[i]).value]
  {
    TellingFields();
    hide Told, NameOf;
    NoParts(r, 0);
    var k := FirstPart(r, 0);
    NoParts(r, k + 1);
  }

  lemma TwoParts(r: Route, i: nat, j: nat)
    requires i < j < 6 && Told(r, TELLING[i]).Some? && Told(r, TELLING[j]).Some?
    requires forall k :: 0 <= k < 6 && k != i && k != j ==> Told(r, TELLING[k]).None?
    ensures TellsApart(TELLING[i]) && TellsApart(TELLING[j])
    ensures PartsFrom(r, 0) == [NameOf(TELLING[i]) + "=" + Told(r, TELLING[i]).value, NameOf(TELLING[j]) + "=" + Told(r, TELLING[j]).value]
  {
    TellingFields();
    hide Told, NameOf, PartsFrom;
    NoParts(r, 0);
    var k := FirstPart(r, 0);
    assert k == i;
    NoParts(r, k + 1);
    var l := FirstPart(r, k + 1);
    assert l == j;
    NoParts(r, l + 1);
  }

  lemma JoinTwo(a: string, b: string)
    ensures Join([a, b], '|') == a + ['|'] + b
  {
    assert [a, b][1..] == [b];
  }

  lemma JoinOne(a: string)
    ensures Join([a], '|') == a
  {
  }

  lemma NonBlankPrefix(x: string, y: string)
    requires NonBlank(x)
    ensures NonBlank(x + y)
  {
    var i :| 0 <= i < |x| && !IsSpace(x[i]);
    assert (x + y)[i] == x[i];
  }

  /** The first told field, read as if it contained the others. */
  lemma FirstSwallows(r: Route, k: nat, rest: seq<string>) returns (o: Route)
    requires k < 6 && TellsApart(TELLING[k]) && Told(r, TELLING[k]).Some? && rest != []
    ensures BuildRouteKey(Some(o)) == Some(Join([NameOf(TELLING[k]) + "=" + Told(r, TELLING[k]).value] + rest, '|'))
    ensures forall l :: 0 <= l < 6 && l != k ==> Told(o, TELLING[l]) == None
  {
    var name, value, tail := NameOf(TELLING[k]), Told(r, TELLING[k]).value, Join(rest, '|');
    var whole := value + ['|'] + tail;
    o := With(EMPTY_ROUTE, TELLING[k], whole);
    WithTells(EMPTY_ROUTE, TELLING[k], whole);
    TellingFields();
    ToldIsNonBlank(r, TELLING[k]);
    Regroup(value, tail);
    NonBlankPrefix(value, ['|'] + tail);
    hide Told, NonBlank, BuildRouteKey, PartsFrom, NameOf, Join, With;
    OnePart(o, k);
    KeyFrom(o);
    JoinOne(name + "=" + whole);
    JoinCons(name + "=" + value, rest, '|');
    Glue(name, value, tail);
  }

  lemma Regroup(x: string, y: string)
    ensures x + ['|'] + y == x + (['|'] + y)
  {
  }

  /** Several fields can be read as one. */
  lemma SeveralAreShared(r: Route, i: nat, j: nat)
    requires i < j < 6 && Told(r, TELLING[i]).Some? && Told(r, TELLING[j]).Some?
    ensures Shared(r)
  {
    hide Told, NonBlank, BuildRouteKey, NameOf, Join;
    TellingFields();
    NoParts(r, 0);
    var k := FirstPart(r, 0);
    NoParts(r, k + 1);
    KeyFrom(r);
    hide PartsFrom;
    var o := FirstSwallows(r, k, PartsFrom(r, k + 1));
    var other := if k == i then j else i;
    assert Told(o, TELLING[other]) != Told(r, TELLING[other]);
  }

  lemma ToldIsNonBlank(r: Route, f: RouteField)
    requires Told(r, f).Some?
    ensures NonBlank(Told(r, f).value)
  {
  }

  lemma Glue(a: string, x: string, rest: string)
    ensures (a + "=" + x) + ['|'] + rest == a + "=" + (x + ['|'] + rest)
  {
  }

  lemma DividedIsShared(r: Route, i: nat, j: nat)
    requires i < j < 6 && Told(r, TELLING[i]).Some? && Divides(Told(r, TELLING[i]).value, j)
    requires forall k :: 0 <= k < 6 && k != i ==> Told(r, TELLING[k]).None?
    ensures Shared(r)
  {
    TellingFields();
    OnePart(r, i);
    KeyFrom(r);
    hide Told, NonBlank, BuildRouteKey, PartsFrom, NameOf;
    var x: string, y: string :| NonBlank(x) && NonBlank(y) && Told(r, TELLING[i]).value == x + ['|'] + (NameOf(TELLING[j]) + "=" + y);
    var first := With(EMPTY_ROUTE, TELLING[i], x);
    var o := With(first, TELLING[j], y);
    WithTells(EMPTY_ROUTE, TELLING[i], x);
    WithTells(first, TELLING[j], y);
    TwoParts(o, i, j);
    KeyFrom(o);
    var a, b := NameOf(TELLING[i]), NameOf(TELLING[j]);
    JoinTwo(a + "=" + x, b + "=" + y);
    Glue(a, x, b + "=" + y);
    JoinOne(a + "=" + Told(r, TELLING[i]).value);
    assert Told(o, TELLING[j]) != Told(r, TELLING[j]);
    hide Join;
  }

  ghost predicate OnlyTold(r: Route, i: nat)
    requires i < 6
  {
    Told(r, TELLING[i]).Some? && forall k :: 0 <= k < 6 && k != i ==> Told(r, TELLING[k]).None?
  }

  /** A route that is told by one field shares its key only if that field's value can be divided. */
  lemma OneIsUnlessDivided(r: Route, i: nat, o: Route)
    requires i < 6 && OnlyTold(r, i) && BuildRouteKey(Some(o)) == BuildRouteKey(Some(r))
    ensures SameTelling(o, r) || exists j :: i < j < 6 && Divides(Told(r, TELLING[i]).value, j)
  {
    OnePart(r, i);
    KeyFrom(r);
    KeyFrom(o);
    JoinOne(NameOf(TELLING[i]) + "=" + Told(r, TELLING[i]).value);
    hide Told, NonBlank, BuildRouteKey, NameOf, Join;
    var k := FirstPart(o, 0);
    hide PartsFrom;
    if PartsFrom(o, k + 1) == [] {
      SingleIsSame(r, i, o, k);
    } else {
      SeveralDivide(r, i, o, k);
    }
  }

  lemma SingleIsSame(r: Route, i: nat, o: Route, k: nat)
    requires i < 6 && OnlyTold(r, i) && FirstTold(o, 0, k) && PartsFrom(o, k + 1) == []
    requires TellsApart(TELLING[i]) && TellsApart(TELLING[k])
    requires Join([NameOf(TELLING[k]) + "=" + Told(o, TELLING[k]).value] + [], '|') == NameOf(TELLING[i]) + "=" + Told(r, TELLING[i]).value
    ensures SameTelling(o, r)
  {
    TellingFields();
    NoParts(o, k + 1);
    JoinOne(NameOf(TELLING[k]) + "=" + Told(o, TELLING[k]).value);
    hide Told, NameOf, Join, PartsFrom, TellsApart;
    NamesDiffer(TELLING[i], TELLING[k], Told(r, TELLING[i]).value, Told(o, TELLING[k]).value);
    assert k == i;
    forall f | TellsApart(f) ensures Told(o, f) == Told(r, f) {
      var l :| 0 <= l < 6 && TELLING[l] == f;
      assert l == i || (Told(o, TELLING[l]) == None && Told(r, TELLING[l]) == None);
    }
  }

  lemma SeveralDivide(r: Route, i: nat, o: Route, k: nat)
    requires i < 6 && OnlyTold(r, i) && FirstTold(o, 0, k) && PartsFrom(o, k + 1) != []
    requires TellsApart(TELLING[i]) && TellsApart(TELLING[k])
    requires Join([NameOf(TELLING[k]) + "=" + Told(o, TELLING[k]).value] + PartsFrom(o, k + 1), '|')
          == NameOf(TELLING[i]) + "=" + Told(r, TELLING[i]).value
    ensures exists j :: i < j < 6 && Divides(Told(r, TELLING[i]).value, j)
  {
    TellingFields();
    hide Told, NameOf, NonBlank, PartsFrom, Join, Tail, Divides;
    var l := FirstPart(o, k + 1);
    var rest, more, v, w := PartsFrom(o, k + 1), PartsFrom(o, l + 1), Told(r, TELLING[i]).value, Told(o, TELLING[k]).value;
    var y := Tail(Told(o, TELLING[l]).value, more);
    DividedTail(o, k, l, rest, more);
    JoinCons(NameOf(TELLING[k]) + "=" + w, rest, '|');
    Glue(NameOf(TELLING[k]), w, NameOf(TELLING[l]) + "=" + y);
    NamesDiffer(TELLING[i], TELLING[k], v, w + ['|'] + (NameOf(TELLING[l]) + "=" + y));
    ToldIsNonBlank(o, TELLING[k]);
    DividesInto(v, w, y, l);
  }

  /** A value followed by further parts. */
  function Tail(value: string, rest: seq<string>): string {
    if rest == [] then value else value + (['|'] + Join(rest, '|'))
  }

  lemma DividesInto(v: string, w: string, y: string, l: nat)
    requires l < 6 && TellsApart(TELLING[l]) && NonBlank(w) && NonBlank(y) && v == w + ['|'] + (NameOf(TELLING[l]) + "=" + y)
    ensures Divides(v, l)
  {
    hide NonBlank, NameOf;
  }

  lemma DividedTail(o: Route, k: nat, l: nat, rest: seq<string>, more: seq<string>)
    requires k < l < 6 && Told(o, TELLING[l]).Some? && TellsApart(TELLING[l])
    requires rest == [NameOf(TELLING[l]) + "=" + Told(o, TELLING[l]).value] + more
    ensures NonBlank(Tail(Told(o, TELLING[l]).value, more))
    ensures Join(rest, '|') == NameOf(TELLING[l]) + "=" + Tail(Told(o, TELLING[l]).value, more)
  {
    ToldIsNonBlank(o, TELLING[l]);
    hide Told, NonBlank, NameOf;
    var name, value := NameOf(TELLING[l]), Told(o, TELLING[l]).value;
    if more == [] {
      assert rest == [name + "=" + value];
    } else {
      JoinCons(name + "=" + value, more, '|');
      NonBlankPrefix(value, ['|'] + Join(more, '|'));
      assert (name + "=" + value) + ['|'] + Join(more, '|') == name + "=" + (value + (['|'] + Join(more, '|')));
    }
  }

  lemma SomeTold(r: Route) returns (i: nat)
    requires Distinguished(r)
    ensures i < 6 && Told(r, TELLING[i]).Some?
  {
    TellingFields();
    var f :| TellsApart(f) && NonBlankOption(FieldOf(r, f));
    i :| 0 <= i < 6 && TELLING[i] == f;
    hide NonBlank;
  }

  lemma OnlyToldIsShared(r: Route, i: nat)
    requires i < 6 && OnlyTold(r, i)
    ensures Shared(r) <==> exists j :: i < j < 6 && Divides(Told(r, TELLING[i]).value, j)
  {
    hide Told, BuildRouteKey, SameTelling, Divides;
    if j :| i < j < 6 && Divides(Told(r, TELLING[i]).value, j) {
      DividedIsShared(r, i, j);
    }
    if o :| BuildRouteKey(Some(o)) == BuildRouteKey(Some(r)) && !SameTelling(o, r) {
      OneIsUnlessDivided(r, i, o);
    }
  }

  lemma OnlyToldIsDivisible(r: Route, i: nat)
    requires i < 6 && OnlyTold(r, i)
    ensures Divisible(r) <==> exists j :: i < j < 6 && Divides(Told(r, TELLING[i]).value, j)
  {
    hide Told, Divides;
    if j :| i < j < 6 && Divides(Told(r, TELLING[i]).value, j) {
      assert Told(r, TELLING[i]).Some? && (Told(r, TELLING[j]).Some? || Divides(Told(r, TELLING[i]).value, j));
    }
    if Divisible(r) {
      var k, j :| 0 <= k < j < 6 && Told(r, TELLING[k]).Some? && (Told(r, TELLING[j]).Some? || Divides(Told(r, TELLING[k]).value, j));
      assert k == i;
    }
  }

  lemma TwoAreDivisible(r: Route, i: nat, j: nat)
    requires i < j < 6 && Told(r, TELLING[i]).Some? && Told(r, TELLING[j]).Some?
    ensures Divisible(r)
  {
    hide Told, Divides;
  }

  /**
   * Another route has the same key, and so shares the entry, exactly when two of the telling fields
   * are told or the only one told contains a bar followed by a later field's name and value.
   */
  lemma RouteKeyIsSharedIff(r: Route)
    requires Distinguished(r)
    ensures Shared(r) <==> Divisible(r)
  {
    hide Told, Shared, Divisible, Divides, Distinguished;
    var i := SomeTold(r);
    if j :| 0 <= j < 6 && j != i && Told(r, TELLING[j]).Some? {
      var low, high := if i < j then i else j, if i < j then j else i;
      SeveralAreShared(r, low, high);
      TwoAreDivisible(r, low, high);
    } else {
      OnlyToldIsShared(r, i);
      OnlyToldIsDivisible(r, i);
    }
  }
}
