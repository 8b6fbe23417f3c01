/**
 * Session-key parsing and the strong/shared distinction. A key that has exactly the
 * form agent:<x>:main is a runtime alias shared by every session of agent <x>; every
 * other non-blank key is strong enough to identify a session.
 */
module SessionKeys {
  import opened Options

  /** Characters removed by trim. */
  predicate IsSpace(c: char) {
    c in "\t\n\r " || c == '\U{000B}' || c == '\U{000C}' || c == '\U{00A0}' || c == '\U{FEFF}' ||
    c == '\U{1680}' || '\U{2000}' <= c <= '\U{200A}' || c == '\U{2028}' || c == '\U{2029}' ||
    c == '\U{202F}' || c == '\U{205F}' || c == '\U{3000}'
  }

  predicate NonBlank(s: string) {
    exists i :: 0 <= i < |s| && !IsSpace(s[i])
  }

  predicate NonBlankOption(o: Option<string>) {
    o.Some? && NonBlank(o.value)
  }

  // ---------------------------------------------------------------- splitting

  function IndexOf(s: string, c: char): (i: nat)
    ensures i <= |s|
    ensures i < |s| ==> s[i] == c
    ensures c !in s[..i]
  {
    if s == [] || s[0] == c then 0
    else
      var j := IndexOf(s[1..], c);
      assert s[..j + 1] == [s[0]] + s[1..][..j];
      j + 1
  }

  function Split(s: string, c: char): (segments: seq<string>)
    ensures |segments| > 0
    ensures forall k :: 0 <= k < |segments| ==> c !in segments[k]
    decreases |s|
  {
    var i := IndexOf(s, c);
    if i == |s| then
      assert s[..i] == s;
      [s]
    else [s[..i]] + Split(s[i + 1..], c)
  }

  function Join(segments: seq<string>, c: char): string {
    if segments == [] then []
    else if |segments| == 1 then segments[0]
    else segments[0] + [c] + Join(segments[1..], c)
  }

  lemma JoinCons(a: string, rest: seq<string>, c: char)
    requires rest != []
    ensures Join([a] + rest, c) == a + [c] + Join(rest, c)
  {
    assert ([a] + rest)[1..] == rest;
  }

  lemma {:induction false} JoinSplit(s: string, c: char)
    ensures Join(Split(s, c), c) == s
    decreases |s|
  {
    hide IndexOf;
    var i := IndexOf(s, c);
    if i < |s| {
      JoinSplit(s[i + 1..], c);
      JoinCons(s[..i], Split(s[i + 1..], c), c);
      assert s == s[..i] + [c] + s[i + 1..];
    }
  }

  lemma {:induction false} FirstIndex(s: string, c: char, n: nat)
    requires n < |s| && s[n] == c && forall k :: 0 <= k < n ==> s[k] != c
    ensures IndexOf(s, c) == n
  {
    if n > 0 {
      FirstIndex(s[1..], c, n - 1);
    }
  }

  lemma {:induction false} SplitCons(a: string, c: char, b: string)
    requires c !in a
    ensures Split(a + [c] + b, c) == [a] + Split(b, c)
  {
    var s := a + [c] + b;
    FirstIndex(s, c, |a|);
    var i := |a|;
    assert s[..i] == a && s[i + 1..] == b;
  }

  // ---------------------------------------------------------------- parsing

  datatype ParsedSessionKey = ParsedSessionKey(
    raw: string,
    agentId: Option<string>,
    provider: Option<string>,
    surface: Option<string>,
    accountId: Option<string>,
    scope: Option<string>,
    threadKind: Option<string>,
    threadToken: Option<string>,
    isThreadScoped: bool)

  /** Indexing past the end of an array yields undefined. */
  function At(segments: seq<string>, i: nat): Option<string> {
    if i < |segments| then Some(segments[i]) else None
  }

  function ParseSessionKey(sessionKey: string): Option<ParsedSessionKey> {
    if !NonBlank(sessionKey) then None
    else
      var segments := Split(sessionKey, ':');
      if segments[0] != "agent" || |segments| < 2 then
        Some(ParsedSessionKey(sessionKey, None, None, None, None, None, None, None, false))
      else if |segments| == 3 then
        Some(ParsedSessionKey(sessionKey, Some(segments[1]), None, None, None, Some(segments[2]), None, None, false))
      else
        var scope := At(segments, 5);
        var threadToken := At(segments, 6);
        var threadKind := if scope == Some("thread") || scope == Some("topic") then scope else None;
        Some(ParsedSessionKey(sessionKey, Some(segments[1]), At(segments, 2), At(segments, 3), At(segments, 4),
                              scope, threadKind, threadToken, threadKind.Some? && NonBlankOption(threadToken)))
  }

  function ParseOption(sessionKey: Option<string>): Option<ParsedSessionKey> {
    if sessionKey.Some? then ParseSessionKey(sessionKey.value) else None
  }

  predicate LooksLikeSessionKey(value: string) {
    NonBlank(value) && "agent:" <= value
  }

  predicate IsSharedRuntimeSessionKey(sessionKey: string) {
    var parsed := ParseSessionKey(sessionKey);
    parsed.Some? && parsed.value.scope == Some("main") && parsed.value.provider.None?
  }

  predicate IsStrongSessionKey(sessionKey: string) {
    NonBlank(sessionKey) && !IsSharedRuntimeSessionKey(sessionKey)
  }

  ghost predicate IsAgentMain(key: string) {
    exists x: string :: ':' !in x && key == "agent:" + x + ":main"
  }

  lemma AgentMainSplits(x: string)
    requires ':' !in x
    ensures Split("agent:" + x + ":main", ':') == ["agent", x, "main"]
  {
    var key := "agent:" + x + ":main";
    assert key == "agent" + [':'] + (x + [':'] + "main");
    SplitCons("agent", ':', x + [':'] + "main");
    SplitCons(x, ':', "main");
    assert Split("main", ':') == ["main"] by {
      var i := IndexOf("main", ':');
    }
  }

  lemma ThreeSegments(key: string, x: string)
    requires Split(key, ':') == ["agent", x, "main"] && ':' !in x
    ensures IsAgentMain(key)
  {
    JoinSplit(key, ':');
    JoinThree("agent", x, "main");
    hide Split, Join;
    assert "agent" + [':'] + (x + [':'] + "main") == "agent:" + x + ":main";
  }

  lemma JoinThree(a: string, b: string, c: string)
    ensures Join([a, b, c], ':') == a + [':'] + (b + [':'] + c)
  {
    assert [a, b, c][1..] == [b, c] && [b, c][1..] == [c];
    assert Join([b, c], ':') == b + [':'] + Join([c], ':');
  }

  lemma SharedHasThreeSegments(key: string)
    ensures IsSharedRuntimeSessionKey(key) ==>
      var segments := Split(key, ':'); |segments| == 3 && segments == ["agent", segments[1], "main"]
  {
  }

  /** The parser recognises exactly the keys of the form agent:<x>:main as shared. */
  lemma SharedKeyForm(key: string)
    ensures IsSharedRuntimeSessionKey(key) <==> IsAgentMain(key)
  {
    hide IsAgentMain, Join;
    if IsSharedRuntimeSessionKey(key) {
      SharedHasThreeSegments(key);
      hide IsSharedRuntimeSessionKey, Split;
      ThreeSegments(key, Split(key, ':')[1]);
    } else if IsAgentMain(key) {
      MainIsShared(key);
    }
  }

  lemma MainIsShared(key: string)
    requires IsAgentMain(key)
    ensures IsSharedRuntimeSessionKey(key)
  {
    var x: string :| ':' !in x && key == "agent:" + x + ":main";
    AgentMainSplits(x);
    assert key[0] == 'a' && !IsSpace(key[0]);
  }
}
