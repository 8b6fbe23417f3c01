/**
 * What guard rules mean for a call: each rule of a configuration says what it would say alone,
 * the first one that says something decides, and what a lone rule says is told by the tool's
 * name, the parameters and the configured answer to errors.
 */
module GuardMeaning {
  import opened Options
  import opened JsonText
  import opened StableJson
  import opened ScopeKeys
  import opened GuardRules
  import opened GuardDistinctions
  import opened GuardSteps
  import opened GuardRuns

  // ---------------------------------------------------------------- a lone static rule

  function Lone(when: When, d: Decision): Config {
    Config(true, false, false, ToolAndParams, 0, 0, false, [Rule("lone", true, 0, when, Static(d), None, 0)])
  }

  /** A guard with empty tables and only that rule decides the call; otherwise it has no opinion. */
  predicate Decides(when: When, v: Visit, env: Env, leq: KeyOrder) {
    Evaluate(EMPTY, v, Lone(when, BLOCK), env, leq).1 == Some(Outcome(BLOCK, FromRule))
  }

  lemma OrderOfOne(rules: seq<Rule>)
    requires |rules| == 1
    ensures OrderOf(rules, 1) == [0]
  {
    assert OrderOf(rules, 0) == [];
  }

  lemma LoneMatches(when: When, d: Decision, v: Visit, env: Env, leq: KeyOrder)
    ensures Evaluate(EMPTY, v, Lone(when, d), env, leq).1 == if MatchesRule(v.event, when, env) then Some(Outcome(d, FromRule)) else None
  {
    hide MatchesRule, OrderOf, ScopeKey;
    var c := Lone(when, d);
    OrderOfOne(c.rules);
    var scope := ScopeKey(v.call.toolName, v.call.params, ToolAndParams, leq);
    assert RunRules(EMPTY, v, scope, c, env, [0], 1).1 == None;
    assert Considers(c.rules[0], v, env) == MatchesRule(v.event, when, env);
    assert Cleanup(EMPTY, v.now, 0) == EMPTY;
  }

  lemma DecidesIffMatches(when: When, v: Visit, env: Env, leq: KeyOrder)
    ensures Decides(when, v, env, leq) <==> MatchesRule(v.event, when, env)
  {
    LoneMatches(when, BLOCK, v, env, leq);
    hide MatchesRule, Evaluate;
  }

  /** A lone rule's decision is told as it is, to exactly the calls it decides. */
  lemma LoneRuleTells(when: When, d: Decision, v: Visit, env: Env, leq: KeyOrder)
    ensures Evaluate(EMPTY, v, Lone(when, d), env, leq).1 == if Decides(when, v, env, leq) then Some(Outcome(d, FromRule)) else None
  {
    LoneMatches(when, d, v, env, leq);
    LoneMatches(when, BLOCK, v, env, leq);
    hide MatchesRule, Evaluate;
  }

  /** All conditions of a rule must hold, each on its own; one without conditions decides every call. */
  lemma AllConditionsDecide(when: When, v: Visit, env: Env, leq: KeyOrder)
    ensures Decides(When(Anything, [], []), v, env, leq)
    ensures Decides(when, v, env, leq) <==>
      && Decides(When(when.toolName, [], []), v, env, leq)
      && (forall i :: 0 <= i < |when.others| ==> Decides(When(Anything, [when.others[i]], []), v, env, leq))
      && (forall i :: 0 <= i < |when.checks| ==> Decides(When(Anything, [], [when.checks[i]]), v, env, leq))
  {
    DecidesIffMatches(when, v, env, leq);
    DecidesIffMatches(When(Anything, [], []), v, env, leq);
    DecidesIffMatches(When(when.toolName, [], []), v, env, leq);
    hide Decides, Passes, ReadPath;
    forall i | 0 <= i < |when.others|
      ensures Decides(When(Anything, [when.others[i]], []), v, env, leq) <==> Matches(when.others[i].1, ReadPath(v.event, when.others[i].0, env.inherited))
    {
      var one := When(Anything, [when.others[i]], []);
      DecidesIffMatches(one, v, env, leq);
      assert one.others[0] == when.others[i];
    }
    forall i | 0 <= i < |when.checks|
      ensures Decides(When(Anything, [], [when.checks[i]]), v, env, leq)
        <==> Passes(when.checks[i], ReadPath(v.event, when.checks[i].path, env.inherited), env)
    {
      DecidesIffCheck(when.checks[i], v, env, leq);
    }
    hide Matches;
  }

  lemma DecidesIffCheck(c: Check, v: Visit, env: Env, leq: KeyOrder)
    ensures Decides(When(Anything, [], [c]), v, env, leq) <==> Passes(c, ReadPath(v.event, c.path, env.inherited), env)
  {
    var one := When(Anything, [], [c]);
    DecidesIffMatches(one, v, env, leq);
    hide Decides, Passes, ReadPath;
    assert one.checks[0] == c;
  }

  /** A list of tool names decides exactly the calls of these tools. */
  lemma ToolNamesDecide(ts: seq<Text>, v: Visit, env: Env, leq: KeyOrder, head: set<Text>)
    requires Genuine(v, head)
    ensures Decides(When(OneOf(ts), [], []), v, env, leq) <==> v.call.toolName in ts
  {
    DecidesIffMatches(When(OneOf(ts), [], []), v, env, leq);
    CallFields(v.call);
    hide Decides, CallData, FieldValue, Valid;
    ToolNameReads(v, env, head);
    hide ReadPath;
  }

  lemma DescendOnce(v: Read, key: Text, inherited: Inherited)
    ensures Descend(v, [key], inherited) == Property(v, key, inherited)
  {
    assert |[key][1..]| == 0;
    hide Property;
  }

  lemma ToolNameReads(v: Visit, env: Env, head: set<Text>)
    requires Genuine(v, head)
    ensures ReadPath(v.event, [DATA, TOOL_NAME], env.inherited) == Got(Str(v.call.toolName))
  {
    CallFields(v.call);
    hide CallData, FieldValue, Valid;
    var path: Path := [DATA, TOOL_NAME];
    assert path[1..] == [TOOL_NAME];
    assert Property(Got(v.event.data), TOOL_NAME, env.inherited) == Got(Str(v.call.toolName));
    DescendOnce(Got(v.event.data), TOOL_NAME, env.inherited);
  }

  /** A list for another property of the event, such as the agent, decides exactly the events with one of these strings there. */
  lemma PropertyListDecides(key: Text, values: seq<Text>, v: Visit, env: Env, leq: KeyOrder)
    requires key in v.event.head && key != DATA
    ensures Decides(When(Anything, [([key], OneOf(values))], []), v, env, leq)
       <==> exists t :: t in values && v.event.head[key] == Some(Str(t))
  {
    var one := When(Anything, [([key], OneOf(values))], []);
    DecidesIffMatches(one, v, env, leq);
    hide Decides;
    assert |[key][1..]| == 0;
    assert one.others[0] == ([key], OneOf(values));
  }

  // ---------------------------------------------------------------- checks of a parameter

  function OfParam(name: Text): Path {
    [DATA, PARAMS, name]
  }

  lemma ParamReads(name: Text, v: Visit, env: Env, head: set<Text>)
    requires Genuine(v, head)
    ensures ReadPath(v.event, OfParam(name), env.inherited) == Property(Got(v.call.params), name, env.inherited)
  {
    CallFields(v.call);
    hide CallData, FieldValue, Valid;
    var path := OfParam(name);
    assert path[1..] == [PARAMS, name] && path[1..][1..] == [name];
    assert Property(Got(v.event.data), PARAMS, env.inherited) == Got(v.call.params);
    DescendOnce(Got(v.call.params), name, env.inherited);
  }

  predicate HasParam(v: Visit, name: Text, value: Json) {
    v.call.params.Obj? && exists i :: 0 <= i < |v.call.params.fields| && v.call.params.fields[i] == Field(name, value)
  }

  lemma OwnParamReads(name: Text, value: Json, v: Visit, env: Env, head: set<Text>)
    requires Genuine(v, head) && HasParam(v, name, value)
    ensures ReadPath(v.event, OfParam(name), env.inherited) == Got(value)
  {
    ParamReads(name, v, env, head);
    var fields := v.call.params.fields;
    var i :| 0 <= i < |fields| && fields[i] == Field(name, value);
    FieldValueAt(fields, i);
    hide FieldValue, ReadPath, OfParam, CallData;
  }

  predicate Holds1(c: Check, v: Visit, env: Env, leq: KeyOrder) {
    Decides(When(Anything, [], [c]), v, env, leq)
  }

  /** The part stands somewhere in the text. */
  ghost predicate Within(part: Text, text: Text) {
    exists a: Text, b: Text :: text == a + part + b
  }

  lemma WithinOccurs(part: Text, text: Text)
    ensures Within(part, text) <==> OccursIn(part, text)
  {
    if Within(part, text) {
      var a: Text, b: Text :| text == a + part + b;
      assert text[|a|..] == part + b;
    }
    if OccursIn(part, text) {
      var i :| 0 <= i <= |text| && part <= text[i..];
      assert text == text[..i] + part + text[i..][|part|..];
    }
  }

  /** A check of a parameter that the call has is about its value. */
  lemma CheckReadsParam(c: Check, name: Text, value: Json, v: Visit, env: Env, leq: KeyOrder, head: set<Text>)
    requires Genuine(v, head) && HasParam(v, name, value) && c.path == OfParam(name)
    ensures Holds1(c, v, env, leq) <==> Passes(c, Got(value), env)
  {
    OwnParamReads(name, value, v, env, head);
    DecidesIffCheck(c, v, env, leq);
    hide Decides, Passes, ReadPath, OfParam, HasParam, Genuine;
  }

  /** What each check asks of a parameter that the call has: a text within it, a value, or one of several. */
  lemma ChecksOfParam(name: Text, value: Json, v: Visit, env: Env, leq: KeyOrder, head: set<Text>, part: Text, expected: Json, values: seq<Json>)
    requires Genuine(v, head) && HasParam(v, name, value)
    ensures Holds1(Contains(OfParam(name), part), v, env, leq) <==> value.Str? && Within(part, value.text)
    ensures Holds1(Equals(OfParam(name), expected), v, env, leq) <==> value == expected
    ensures Holds1(Required(OfParam(name)), v, env, leq) <==> value != Null
    ensures Holds1(InList(OfParam(name), values), v, env, leq) <==> value in values
    ensures Holds1(NotInList(OfParam(name), values), v, env, leq) <==> value !in values
  {
    hide Holds1, OccursIn, Within, Genuine, HasParam, OfParam;
    CheckReadsParam(Contains(OfParam(name), part), name, value, v, env, leq, head);
    CheckReadsParam(Equals(OfParam(name), expected), name, value, v, env, leq, head);
    CheckReadsParam(Required(OfParam(name)), name, value, v, env, leq, head);
    CheckReadsParam(InList(OfParam(name), values), name, value, v, env, leq, head);
    CheckReadsParam(NotInList(OfParam(name), values), name, value, v, env, leq, head);
    if value.Str? { WithinOccurs(part, value.text); }
  }

  /** Or a type. */
  lemma TypeChecksOfParam(name: Text, value: Json, v: Visit, env: Env, leq: KeyOrder, head: set<Text>)
    requires Genuine(v, head) && HasParam(v, name, value)
    ensures Holds1(TypeIs(OfParam(name), StringKind), v, env, leq) <==> value.Str?
    ensures Holds1(TypeIs(OfParam(name), NumberKind), v, env, leq) <==> value.Num?
    ensures Holds1(TypeIs(OfParam(name), BooleanKind), v, env, leq) <==> value.Bool?
    ensures Holds1(TypeIs(OfParam(name), ObjectKind), v, env, leq) <==> value.Obj?
    ensures Holds1(TypeIs(OfParam(name), ArrayKind), v, env, leq) <==> value.Arr?
  {
    hide Holds1, OccursIn, Genuine, HasParam, OfParam;
    forall kind ensures Holds1(TypeIs(OfParam(name), kind), v, env, leq) <==> HasKind(Got(value), kind) {
      CheckReadsParam(TypeIs(OfParam(name), kind), name, value, v, env, leq, head);
    }
  }

  /** And the checks that read regular expressions, URLs, numbers and agent statuses. */
  lemma InterpretedChecksOfParam(name: Text, value: Json, v: Visit, env: Env, leq: KeyOrder, head: set<Text>, text: Text, domains: seq<Text>)
    requires Genuine(v, head) && HasParam(v, name, value)
    ensures Holds1(MatchesRegex(OfParam(name), text), v, env, leq) <==>
      value.Str? && env.regexValid(text) && env.regexTest(text, value.text)
    ensures Holds1(NotMatchesRegex(OfParam(name), text), v, env, leq) <==>
      !value.Str? || (env.regexValid(text) && !env.regexTest(text, value.text))
    ensures Holds1(InDomains(OfParam(name), domains), v, env, leq) <==>
      value.Str? && env.hostOf(value.text).Some? && env.hostMatches(env.hostOf(value.text).value, domains)
    ensures Holds1(AtLeast(OfParam(name), text), v, env, leq) <==> value.Num? && env.atLeast(value.numeral, text)
    ensures Holds1(StatusOf(OfParam(name), text), v, env, leq) <==>
      value.Str? && value.text in env.statusOf && env.statusOf[value.text] == text
  {
    hide Holds1, OccursIn, Genuine, HasParam, OfParam;
    CheckReadsParam(MatchesRegex(OfParam(name), text), name, value, v, env, leq, head);
    CheckReadsParam(NotMatchesRegex(OfParam(name), text), name, value, v, env, leq, head);
    CheckReadsParam(InDomains(OfParam(name), domains), name, value, v, env, leq, head);
    CheckReadsParam(AtLeast(OfParam(name), text), name, value, v, env, leq, head);
    CheckReadsParam(StatusOf(OfParam(name), text), name, value, v, env, leq, head);
  }

  /** What each check makes of a parameter that the call does not have. */
  lemma ChecksOfMissingParam(name: Text, v: Visit, env: Env, leq: KeyOrder, head: set<Text>, c: Check)
    requires Genuine(v, head) && c.path == OfParam(name) && name !in env.inherited.byObjects && name != PROTO
    requires forall i :: 0 <= i < |v.call.params.fields| ==> v.call.params.fields[i].key != name
    ensures Holds1(c, v, env, leq) <==> c.NotInList? || c.NotMatchesRegex?
  {
    ParamReads(name, v, env, head);
    DecidesIffCheck(c, v, env, leq);
    NoField(v.call.params.fields, name);
    hide ReadPath, OfParam, FieldValue, Decides, OccursIn;
  }

  lemma {:induction false} NoField(fields: seq<Field>, key: Text)
    requires forall i :: 0 <= i < |fields| ==> fields[i].key != key
    ensures FieldValue(fields, key) == None
  {
    if fields != [] {
      NoField(fields[1..], key);
    }
  }

  // ---------------------------------------------------------------- what one rule says

  /** The scope is neither in its backoff nor cached. */
  predicate Open(g: Guard, v: Visit, c: Config, leq: KeyOrder) {
    var clean := Cleanup(g, v.now, c.retryBackoffMs);
    var scope := ScopeKey(v.call.toolName, v.call.params, c.mode, leq);
    scope !in clean.blocked && scope !in clean.cache
  }

  /** The rule was triggered less than its cooldown ago; a time of zero counts as never. */
  predicate Cooling(last: map<RuleId, int>, rule: Rule, now: int) {
    rule.cooldownMs > 0 && rule.id in last && last[rule.id] != 0 && now - last[rule.id] < rule.cooldownMs
  }

  function Stops(rule: Rule, c: Config): bool {
    if rule.stopOnMatch.Some? then rule.stopOnMatch.value else c.stopOnMatchDefault
  }

  /** The rule at position k of the order, judged by itself. */
  function SaysAt(g: Guard, v: Visit, c: Config, env: Env, order: seq<nat>, k: nat): Option<Outcome>
    requires Indices(order, |c.rules|) && k < |order|
  {
    var rule := c.rules[order[k]];
    if !Considers(rule, v, env) || !CanTrigger(g.lastTrigger, rule, v.checkedAt(k)) then None
    else
      match EffectOf(rule, v.answers(k), c)
      case Skip => None
      case Return(outcome, _) => Some(outcome)
  }

  function Alone(c: Config, i: nat): Config
    requires i < |c.rules|
  {
    c.(rules := [c.rules[i]])
  }

  /** The visit as the rule at position k sees it. */
  function SeenAt(v: Visit, k: nat): Visit {
    v.(checkedAt := (n: nat) => v.checkedAt(k), answers := (n: nat) => v.answers(k))
  }

  lemma AloneSays(g: Guard, v: Visit, c: Config, env: Env, leq: KeyOrder, order: seq<nat>, k: nat)
    requires c.enabled && Open(g, v, c, leq) && Indices(order, |c.rules|) && k < |order|
    ensures Evaluate(g, SeenAt(v, k), Alone(c, order[k]), env, leq).1 == SaysAt(g, v, c, env, order, k)
  {
    hide MatchesRule, CanTrigger, EffectOf, Record, ScopeKey, OrderOf, LiveBlocks, LiveApprovals;
    var one, at := Alone(c, order[k]), SeenAt(v, k);
    var clean, scope := Cleanup(g, v.now, c.retryBackoffMs), ScopeKey(v.call.toolName, v.call.params, c.mode, leq);
    OrderOfOne(one.rules);
    assert forall h: Guard :: RunRules(h, at, scope, one, env, [0], 1).1 == None;
    assert Considers(one.rules[0], at, env) == Considers(c.rules[order[k]], v, env);
    SameEffect(one.rules[0], v.answers(k), one, c);
    assert RunRules(clean, at, scope, one, env, [0], 0).1 == SaysAt(g, v, c, env, order, k);
  }

  lemma SameEffect(rule: Rule, answer: Answer, c: Config, d: Config)
    requires c.dryRun == d.dryRun && c.blockOnError == d.blockOnError && c.stopOnMatchDefault == d.stopOnMatchDefault
    ensures EffectOf(rule, answer, c) == EffectOf(rule, answer, d)
  {
  }

  /** Two rules with the same id have no cooldown. */
  ghost predicate Independent(c: Config) {
    forall i, j :: 0 <= i < |c.rules| && 0 <= j < |c.rules| && i != j && c.rules[i].id == c.rules[j].id ==> c.rules[j].cooldownMs <= 0
  }

  ghost predicate SameCooldowns(g: Guard, h: Guard, v: Visit, c: Config, order: seq<nat>, k: nat)
    requires Indices(order, |c.rules|)
  {
    forall l :: k <= l < |order| ==>
      CanTrigger(g.lastTrigger, c.rules[order[l]], v.checkedAt(l)) == CanTrigger(h.lastTrigger, c.rules[order[l]], v.checkedAt(l))
  }

  lemma TriggerKeepsCooldowns(g: Guard, h: Guard, v: Visit, c: Config, order: seq<nat>, k: nat)
    requires Indices(order, |c.rules|) && k < |order| && Independent(c) && SameCooldowns(g, h, v, c, order, k)
    requires forall m, n :: 0 <= m < n < |order| ==> order[m] != order[n]
    ensures SameCooldowns(g, h.(lastTrigger := h.lastTrigger[c.rules[order[k]].id := v.checkedAt(k)]), v, c, order, k + 1)
  {
  }

  /** The first rule that says something. */
  ghost predicate FirstSays(g: Guard, v: Visit, c: Config, env: Env, order: seq<nat>, k: nat, o: Option<Outcome>)
    requires Indices(order, |c.rules|)
  {
    if o.None? then forall l :: k <= l < |order| ==> SaysAt(g, v, c, env, order, l) == None
    else exists l :: k <= l < |order| && SaysAt(g, v, c, env, order, l) == o && forall m :: k <= m < l ==> SaysAt(g, v, c, env, order, m) == None
  }

  lemma {:induction false} RunSays(g: Guard, h: Guard, v: Visit, scope: Text, c: Config, env: Env, order: seq<nat>, k: nat)
    requires Indices(order, |c.rules|) && k <= |order| && Independent(c) && SameCooldowns(g, h, v, c, order, k)
    requires forall m, n :: 0 <= m < n < |order| ==> order[m] != order[n]
    ensures FirstSays(g, v, c, env, order, k, RunRules(h, v, scope, c, env, order, k).1)
    decreases |order| - k
  {
    hide Considers, CanTrigger, EffectOf, Record, Independent, SameCooldowns, FirstSays;
    if k < |order| {
      var rule := c.rules[order[k]];
      TriggerKeepsCooldowns(g, h, v, c, order, k);
      HereSame(g, h, v, c, order, k);
      var triggered := h.(lastTrigger := h.lastTrigger[rule.id := v.checkedAt(k)]);
      LaterSame(g, h, v, c, order, k);
      RunSays(g, h, v, scope, c, env, order, k + 1);
      RunSays(g, triggered, v, scope, c, env, order, k + 1);
      SaysHere(g, v, c, env, order, k, RunRules(h, v, scope, c, env, order, k).1);
    } else {
      NothingSays(g, v, c, env, order);
    }
  }

  lemma HereSame(g: Guard, h: Guard, v: Visit, c: Config, order: seq<nat>, k: nat)
    requires Indices(order, |c.rules|) && k < |order| && SameCooldowns(g, h, v, c, order, k)
    ensures CanTrigger(g.lastTrigger, c.rules[order[k]], v.checkedAt(k)) == CanTrigger(h.lastTrigger, c.rules[order[k]], v.checkedAt(k))
  {
  }

  lemma LaterSame(g: Guard, h: Guard, v: Visit, c: Config, order: seq<nat>, k: nat)
    requires Indices(order, |c.rules|) && SameCooldowns(g, h, v, c, order, k)
    ensures SameCooldowns(g, h, v, c, order, k + 1)
  {
  }

  lemma NothingSays(g: Guard, v: Visit, c: Config, env: Env, order: seq<nat>)
    requires Indices(order, |c.rules|)
    ensures FirstSays(g, v, c, env, order, |order|, None)
  {
  }

  lemma SaysHere(g: Guard, v: Visit, c: Config, env: Env, order: seq<nat>, k: nat, o: Option<Outcome>)
    requires Indices(order, |c.rules|) && k < |order|
    requires if SaysAt(g, v, c, env, order, k).Some? then o == SaysAt(g, v, c, env, order, k) else FirstSays(g, v, c, env, order, k + 1, o)
    ensures FirstSays(g, v, c, env, order, k, o)
  {
    hide SaysAt;
    if SaysAt(g, v, c, env, order, k).None? && o.Some? {
      var l :| k + 1 <= l < |order| && SaysAt(g, v, c, env, order, l) == o
        && forall m :: k + 1 <= m < l ==> SaysAt(g, v, c, env, order, m) == None;
      assert forall m :: k <= m < l ==> SaysAt(g, v, c, env, order, m) == None;
    }
  }

  /** The rules by falling priority and then by position, each once. */
  ghost predicate EvaluationOrder(rules: seq<Rule>, order: seq<nat>) {
    && Indices(order, |rules|) && (forall i: nat :: i < |rules| ==> i in order)
    && (forall k, l :: 0 <= k < l < |order| ==>
          || rules[order[k]].priority > rules[order[l]].priority
          || (rules[order[k]].priority == rules[order[l]].priority && order[k] < order[l]))
  }

  /** The outcome is that of the first rule in the order that has one when it is alone in the configuration. */
  ghost predicate FirstAlone(g: Guard, v: Visit, c: Config, env: Env, leq: KeyOrder, order: seq<nat>, o: Option<Outcome>)
    requires Indices(order, |c.rules|)
  {
    if o.None? then forall k :: 0 <= k < |order| ==> Evaluate(g, SeenAt(v, k), Alone(c, order[k]), env, leq).1 == None
    else exists k :: 0 <= k < |order| && SilentBefore(g, v, c, env, leq, order, k) && Evaluate(g, SeenAt(v, k), Alone(c, order[k]), env, leq).1 == o
  }

  ghost predicate SilentBefore(g: Guard, v: Visit, c: Config, env: Env, leq: KeyOrder, order: seq<nat>, k: nat)
    requires Indices(order, |c.rules|) && k < |order|
  {
    forall m :: 0 <= m < k ==> Evaluate(g, SeenAt(v, m), Alone(c, order[m]), env, leq).1 == None
  }

  /**
   * A call whose scope is in neither table is told what the first rule says that says something,
   * each rule being judged as if it were alone, by falling priority and then by position.
   */
  lemma FirstRuleToSpeakDecides(g: Guard, v: Visit, c: Config, env: Env, leq: KeyOrder) returns (order: seq<nat>)
    requires c.enabled && Open(g, v, c, leq) && Independent(c)
    ensures EvaluationOrder(c.rules, order)
    ensures FirstAlone(g, v, c, env, leq, order, Evaluate(g, v, c, env, leq).1)
  {
    order := OrderOf(c.rules, |c.rules|);
    OrderIsSorted(c.rules, |c.rules|);
    var clean, scope := Cleanup(g, v.now, c.retryBackoffMs), ScopeKey(v.call.toolName, v.call.params, c.mode, leq);
    RunSays(g, clean, v, scope, c, env, order, 0);
    forall k | 0 <= k < |order| ensures Evaluate(g, SeenAt(v, k), Alone(c, order[k]), env, leq).1 == SaysAt(g, v, c, env, order, k) {
      AloneSays(g, v, c, env, leq, order, k);
    }
    EvaluateOpen(g, v, c, env, leq);
    hide Evaluate, SaysAt, RunRules, OrderOf, Independent, Open, Alone, SeenAt;
  }

  lemma EvaluateOpen(g: Guard, v: Visit, c: Config, env: Env, leq: KeyOrder)
    requires c.enabled && Open(g, v, c, leq)
    ensures Evaluate(g, v, c, env, leq) == RunRules(Cleanup(g, v.now, c.retryBackoffMs), v,
      ScopeKey(v.call.toolName, v.call.params, c.mode, leq), c, env, OrderOf(c.rules, |c.rules|), 0)
  {
    hide RunRules, ScopeKey, OrderOf, LiveBlocks, LiveApprovals;
  }

  /** The decision that a lone rule comes to, by itself or by its action; a dry run comes to none. */
  ghost predicate ComesTo(rule: Rule, answer: Answer, c: Config, d: Decision, source: Source) {
    && !c.dryRun
    && ((rule.body == Static(d) && source == FromRule) || (rule.body == Action && answer == Decided(d) && source == FromAction))
  }

  /** What a lone rule says: nothing unless it is enabled, decides the call and is not cooling; then this. */
  lemma LoneRuleSays(g: Guard, v: Visit, c: Config, env: Env, leq: KeyOrder)
    requires c.enabled && Open(g, v, c, leq) && |c.rules| == 1
    ensures var rule, answer, o := c.rules[0], v.answers(0), Evaluate(g, v, c, env, leq).1;
      if !rule.enabled || !Decides(rule.when, v, env, leq) || Cooling(g.lastTrigger, rule, v.checkedAt(0)) then o == None
      else
        && (forall d, source :: ComesTo(rule, answer, c, d, source) ==> o == Some(Outcome(d, source)))
        && (rule.body == Action && answer == Threw && c.blockOnError ==> o == Some(Outcome(Decision(Some(true), None), FromAction)))
        && (rule.body == Action && answer == Missing && c.blockOnError ==> o == Some(Outcome(Decision(Some(true), None), ConfigurationError)))
        && (rule.body == Action && answer == Missing && !c.blockOnError ==> o == None)
        && ((rule.body == Action && (answer == NoDecision || (answer == Threw && !c.blockOnError)))
            || (c.dryRun && (rule.body.Static? || answer.Decided?)) ==>
              o == if Stops(rule, c) then Some(Outcome(Decision(None, None), MatchedOnly)) else None)
  {
    OrderOfOne(c.rules);
    EvaluateOpen(g, v, c, env, leq);
    DecidesIffMatches(c.rules[0].when, v, env, leq);
    hide Evaluate, MatchesRule, ScopeKey, OrderOf, LiveBlocks, LiveApprovals, Decides, Record;
    var clean, scope := Cleanup(g, v.now, c.retryBackoffMs), ScopeKey(v.call.toolName, v.call.params, c.mode, leq);
    assert forall h: Guard :: RunRules(h, v, scope, c, env, [0], 1).1 == None;
  }

  /** Whatever the guard says of a call comes from an enabled rule that would decide it alone. */
  lemma RuleOutcomeHasCause(g: Guard, v: Visit, c: Config, env: Env, leq: KeyOrder) returns (i: nat)
    requires Evaluate(g, v, c, env, leq).1.Some? && c.enabled && Open(g, v, c, leq)
    ensures i < |c.rules| && c.rules[i].enabled && Decides(c.rules[i].when, v, env, leq)
    ensures Evaluate(g, v, c, env, leq).1.value.source == FromRule ==>
      c.rules[i].body == Static(Evaluate(g, v, c, env, leq).1.value.decision)
  {
    EvaluateOpen(g, v, c, env, leq);
    hide Evaluate, ScopeKey, OrderOf, Open, Decides, MatchesRule;
    var order := OrderOf(c.rules, |c.rules|);
    var clean, scope := Cleanup(g, v.now, c.retryBackoffMs), ScopeKey(v.call.toolName, v.call.params, c.mode, leq);
    var k := RunHasCause(clean, v, scope, c, env, order, 0);
    i := order[k];
    DecidesIffMatches(c.rules[i].when, v, env, leq);
  }

  lemma {:induction false} RunHasCause(g: Guard, v: Visit, scope: Text, c: Config, env: Env, order: seq<nat>, k: nat) returns (l: nat)
    requires Indices(order, |c.rules|) && k <= |order| && RunRules(g, v, scope, c, env, order, k).1.Some?
    ensures k <= l < |order| && Considers(c.rules[order[l]], v, env)
    ensures RunRules(g, v, scope, c, env, order, k).1.value.source == FromRule ==>
      c.rules[order[l]].body == Static(RunRules(g, v, scope, c, env, order, k).1.value.decision)
    decreases |order| - k
  {
    hide MatchesRule, CanTrigger, Record;
    var rule := c.rules[order[k]];
    if !Considers(rule, v, env) || !CanTrigger(g.lastTrigger, rule, v.checkedAt(k)) {
      l := RunHasCause(g, v, scope, c, env, order, k + 1);
    } else if EffectOf(rule, v.answers(k), c).Skip? {
      l := RunHasCause(g.(lastTrigger := g.lastTrigger[rule.id := v.checkedAt(k)]), v, scope, c, env, order, k + 1);
    } else {
      l := k;
    }
  }

  /** In particular a rule for some tools never speaks on a call of another tool. */
  lemma RulesSpeakForTheirTools(g: Guard, v: Visit, c: Config, env: Env, leq: KeyOrder, head: set<Text>) returns (i: nat)
    requires Evaluate(g, v, c, env, leq).1.Some? && c.enabled && Open(g, v, c, leq) && Genuine(v, head)
    ensures i < |c.rules| && c.rules[i].enabled && (c.rules[i].when.toolName == Anything || v.call.toolName in c.rules[i].when.toolName.values)
  {
    i := RuleOutcomeHasCause(g, v, c, env, leq);
    AllConditionsDecide(c.rules[i].when, v, env, leq);
    hide Evaluate, Decides, Open;
    if c.rules[i].when.toolName.OneOf? {
      ToolNamesDecide(c.rules[i].when.toolName.values, v, env, leq, head);
    }
  }

  // ---------------------------------------------------------------- what is remembered of a decision

  /** Call i was decided by a rule or an action, in this way. */
  predicate DecidedBy(visits: seq<Visit>, i: nat, s: Setup, d: Decision)
    requires i < |visits|
  {
    Told(visits, i, s) == Some(Outcome(d, FromRule)) || Told(visits, i, s) == Some(Outcome(d, FromAction))
  }

  /** A block is repeated to every call of the scope until its backoff is over. */
  lemma BlockIsRepeated(visits: seq<Visit>, i: nat, n: nat, s: Setup, d: Decision)
    requires i < n < |visits| && s.config.enabled && s.config.retryBackoffMs > 0 && ScopeOf(visits[n], s) == ScopeOf(visits[i], s)
    requires DecidedBy(visits, i, s, d) && d.block == Some(true)
    requires forall j :: i < j <= n ==> visits[j].now < visits[i].now + s.config.retryBackoffMs
    ensures Told(visits, n, s) == Some(Outcome(Decision(Some(true), None), FromBackoff))
  {
    hide Told, ScopeOf, After;
    BackoffBlocksWithoutRules(visits, i, n, s);
  }

  /** Every blocked scope was blocked by a call of it, at the noted time. */
  lemma {:induction false} BlockHasOrigin(visits: seq<Visit>, n: nat, s: Setup, scope: Text) returns (i: nat)
    requires n <= |visits| && scope in After(visits, n, s).blocked
    ensures i < n && ScopeOf(visits[i], s) == scope && visits[i].now == After(visits, n, s).blocked[scope]
    ensures exists d: Decision :: d.block == Some(true) && DecidedBy(visits, i, s, d)
    decreases n
  {
    if !s.config.enabled {
      DisabledStaysEmpty(visits, n, s);
      assert false;
    }
    EvaluateTables(After(visits, n - 1, s), visits[n - 1], s);
    i := n - 1;
    hide Evaluate, ScopeOf, LiveApprovals;
    if !Judged(Told(visits, n - 1, s)) || ScopeOf(visits[n - 1], s) != scope || !Blocks(Told(visits, n - 1, s).value.decision) {
      i := BlockHasOrigin(visits, n - 1, s, scope);
    } else {
      assert DecidedBy(visits, i, s, Told(visits, i, s).value.decision);
    }
  }

  /** And a call is blocked by the backoff only while that of an earlier block of its scope lasts. */
  lemma BackoffHasBlock(visits: seq<Visit>, n: nat, s: Setup) returns (i: nat)
    requires n < |visits| && Told(visits, n, s).Some? && Told(visits, n, s).value.source == FromBackoff
    ensures i < n && ScopeOf(visits[i], s) == ScopeOf(visits[n], s) && visits[n].now < visits[i].now + s.config.retryBackoffMs
    ensures exists d: Decision :: d.block == Some(true) && DecidedBy(visits, i, s, d)
  {
    var g, v := After(visits, n, s), visits[n];
    if s.config.enabled {
      EvaluateTables(g, v, s);
      i := BlockHasOrigin(visits, n, s, ScopeOf(v, s));
      hide RunRules, ScopeKey, LiveApprovals, OrderOf, After;
    }
  }

  predicate Cached(g: Guard, scope: Text, a: Approval) {
    scope in g.cache && g.cache[scope] == a
  }

  /** A cached approval stays until it expires. */
  lemma ApprovalStays(g: Guard, v: Visit, s: Setup, scope: Text, a: Approval)
    requires s.config.enabled && Cached(g, scope, a) && v.now < a.expiresAt
    ensures Cached(Evaluate(g, v, s.config, s.env, s.leq).0, scope, a)
  {
    EvaluateTables(g, v, s);
    hide Evaluate, ScopeOf, LiveBlocks;
  }

  lemma {:induction false} ApprovalStaysOverRun(visits: seq<Visit>, i: nat, n: nat, s: Setup, d: Decision)
    requires i < n <= |visits| && s.config.enabled && s.config.approvalCacheTtlMs > 0
    requires DecidedBy(visits, i, s, d) && d.block != Some(true)
    requires forall j :: i < j < n ==> visits[j].now < visits[i].now + s.config.approvalCacheTtlMs
    ensures Cached(After(visits, n, s), ScopeOf(visits[i], s), Approval(visits[i].now + s.config.approvalCacheTtlMs, d.patch))
    decreases n
  {
    if n == i + 1 {
      EvaluateTables(After(visits, i, s), visits[i], s);
      hide Evaluate, ScopeOf, Cleanup;
    } else {
      ApprovalStaysOverRun(visits, i, n - 1, s, d);
      hide Evaluate, ScopeOf;
      ApprovalStays(After(visits, n - 1, s), visits[n - 1], s, ScopeOf(visits[i], s),
                    Approval(visits[i].now + s.config.approvalCacheTtlMs, d.patch));
    }
  }

  /** With the cache on, an approval and its patch are repeated to every call of the scope until they expire. */
  lemma ApprovalIsRepeated(visits: seq<Visit>, i: nat, n: nat, s: Setup, d: Decision)
    requires i < n < |visits| && s.config.enabled && s.config.approvalCacheTtlMs > 0 && ScopeOf(visits[n], s) == ScopeOf(visits[i], s)
    requires DecidedBy(visits, i, s, d) && d.block != Some(true)
    requires forall j :: i < j <= n ==> visits[j].now < visits[i].now + s.config.approvalCacheTtlMs
    ensures Told(visits, n, s) == Some(Outcome(Decision(Some(false), d.patch), FromCache))
  {
    ApprovalStaysOverRun(visits, i, n, s, d);
    NeverBlockedAndApproved(visits, n, s);
    hide RunRules, ScopeKey, OrderOf, After;
  }

  /** Where scopes are tools, a block holds for every call of the tool, whatever its parameters are, and for no other call. */
  lemma ToolScopeBlocksTool(visits: seq<Visit>, i: nat, n: nat, s: Setup, d: Decision)
    requires i < n < |visits| && s.config.enabled && s.config.retryBackoffMs > 0 && s.config.mode == ToolOnly
    requires DecidedBy(visits, i, s, d) && d.block == Some(true)
    requires forall j :: i < j <= n ==> visits[j].now < visits[i].now + s.config.retryBackoffMs
    ensures visits[n].call.toolName == visits[i].call.toolName ==> Told(visits, n, s) == Some(Outcome(Decision(Some(true), None), FromBackoff))
    ensures ScopeOf(visits[n], s) == ScopeOf(visits[i], s) <==> visits[n].call.toolName == visits[i].call.toolName
  {
    ToolKeyIdentifies(visits[n].call.toolName, visits[n].call.params, visits[i].call.toolName, visits[i].call.params, s.leq);
    hide ScopeKey, Told, DecidedBy;
    if visits[n].call.toolName == visits[i].call.toolName {
      BlockIsRepeated(visits, i, n, s, d);
    }
  }
}
