/**
 * Evaluating the tool guard before a call: rules in priority order, a table of blocked
 * scopes for the retry backoff, and a cache of approvals.
 */
module GuardSteps {
  import opened Options
  import opened JsonText
  import opened StableJson
  import opened ScopeKeys
  import opened GuardRules

  type RuleId = string

  /** A decision: whether to block, and a patch to the parameters; both may be absent. */
  datatype Decision = Decision(block: Option<bool>, patch: Option<Json>)

  /** A rule decides by itself, or asks an action. */
  datatype Body = Static(decision: Decision) | Action

  /** What asking an action came to. */
  datatype Answer = Missing | NoDecision | Decided(decision: Decision) | Threw

  datatype Rule = Rule(id: RuleId, enabled: bool, priority: int, when: When, body: Body, stopOnMatch: Option<bool>, cooldownMs: int)

  datatype Config = Config(
    enabled: bool, dryRun: bool, blockOnError: bool, mode: ScopeMode,
    retryBackoffMs: int, approvalCacheTtlMs: int, stopOnMatchDefault: bool, rules: seq<Rule>)

  datatype Source = FromRule | FromAction | FromBackoff | FromCache | MatchedOnly | ConfigurationError

  datatype Outcome = Outcome(decision: Decision, source: Source)

  datatype Approval = Approval(expiresAt: int, patch: Option<Json>)

  datatype Guard = Guard(lastTrigger: map<RuleId, int>, blocked: map<Text, int>, cache: map<Text, Approval>)

  const EMPTY := Guard(map[], map[], map[])

  /** One call at the guard: when it starts, when each rule is reached, what each action answers. */
  datatype Visit = Visit(call: Call, event: Event, now: int, checkedAt: nat -> int, answers: nat -> Answer)

  // ---------------------------------------------------------------- rule order

  /** Rule i is evaluated before rule j: a higher priority, or the same and earlier in the list. */
  predicate Precedes(rules: seq<Rule>, i: nat, j: nat)
    requires i < |rules| && j < |rules|
  {
    rules[i].priority > rules[j].priority || (rules[i].priority == rules[j].priority && i < j)
  }

  predicate Indices(order: seq<nat>, n: nat) {
    forall k :: 0 <= k < |order| ==> order[k] < n
  }

  function InsertIndex(rules: seq<Rule>, order: seq<nat>, i: nat): (r: seq<nat>)
    requires i < |rules| && Indices(order, |rules|)
    ensures Indices(r, |rules|)
  {
    if order == [] || Precedes(rules, i, order[0]) then [i] + order else [order[0]] + InsertIndex(rules, order[1..], i)
  }

  /** The evaluation order of the first n rules. */
  function OrderOf(rules: seq<Rule>, n: nat): (r: seq<nat>)
    requires n <= |rules|
    ensures Indices(r, |rules|)
  {
    if n == 0 then [] else InsertIndex(rules, OrderOf(rules, n - 1), n - 1)
  }

  ghost predicate Ordered(rules: seq<Rule>, order: seq<nat>)
    requires Indices(order, |rules|)
  {
    forall k, l :: 0 <= k < l < |order| ==> Precedes(rules, order[k], order[l])
  }

  lemma {:induction false} InsertKeepsOrder(rules: seq<Rule>, order: seq<nat>, i: nat)
    requires i < |rules| && Indices(order, |rules|) && Ordered(rules, order) && i !in order
    ensures Ordered(rules, InsertIndex(rules, order, i))
    ensures forall j :: j in InsertIndex(rules, order, i) <==> j == i || j in order
  {
    if order != [] && !Precedes(rules, i, order[0]) {
      InsertKeepsOrder(rules, order[1..], i);
      var rest := InsertIndex(rules, order[1..], i);
      forall k | 0 <= k < |rest| ensures Precedes(rules, order[0], rest[k]) {
        assert rest[k] in rest;
      }
    }
  }

  /** The order lists every rule, by priority and then by position. */
  lemma {:induction false} OrderIsSorted(rules: seq<Rule>, n: nat)
    requires n <= |rules|
    ensures Ordered(rules, OrderOf(rules, n)) && forall j: nat :: j in OrderOf(rules, n) <==> j < n
  {
    if n > 0 {
      OrderIsSorted(rules, n - 1);
      InsertKeepsOrder(rules, OrderOf(rules, n - 1), n - 1);
    }
  }

  // ---------------------------------------------------------------- cooldown and tables

  predicate CanTrigger(lastTrigger: map<RuleId, int>, rule: Rule, now: int) {
    || rule.cooldownMs <= 0
    || rule.id !in lastTrigger
    || lastTrigger[rule.id] == 0
    || now - lastTrigger[rule.id] >= rule.cooldownMs
  }

  function LiveApprovals(cache: map<Text, Approval>, now: int): map<Text, Approval> {
    map k | k in cache && cache[k].expiresAt > now :: cache[k]
  }

  function LiveBlocks(blocked: map<Text, int>, now: int, backoff: int): map<Text, int> {
    map k | k in blocked && backoff > 0 && now - blocked[k] < backoff :: blocked[k]
  }

  function Cleanup(g: Guard, now: int, backoff: int): Guard {
    g.(cache := LiveApprovals(g.cache, now), blocked := LiveBlocks(g.blocked, now, backoff))
  }

  predicate Blocks(d: Decision) {
    d.block == Some(true)
  }

  function Record(g: Guard, scope: Text, d: Decision, c: Config, now: int): Guard {
    if Blocks(d) then g.(blocked := g.blocked[scope := now])
    else if c.approvalCacheTtlMs <= 0 then g
    else g.(cache := g.cache[scope := Approval(now + c.approvalCacheTtlMs, d.patch)])
  }

  // ---------------------------------------------------------------- evaluation

  predicate Considers(rule: Rule, v: Visit, env: Env) {
    rule.enabled && MatchesRule(v.event, rule.when, env)
  }

  const NOTHING := Decision(None, None)
  const BLOCK := Decision(Some(true), None)

  /** What a triggered rule leads to: an outcome, which may have to be recorded, or the next rule. */
  datatype Effect = Skip | Return(outcome: Outcome, record: bool)

  function EffectOf(rule: Rule, answer: Answer, c: Config): Effect {
    var stop := rule.stopOnMatch.GetOr(c.stopOnMatchDefault);
    var quiet := if stop then Return(Outcome(NOTHING, MatchedOnly), false) else Skip;
    match rule.body
    case Static(d) => if c.dryRun then quiet else Return(Outcome(d, FromRule), true)
    case Action =>
      match answer
      case Missing => if c.blockOnError then Return(Outcome(BLOCK, ConfigurationError), false) else Skip
      case NoDecision => quiet
      case Decided(d) => if c.dryRun then quiet else Return(Outcome(d, FromAction), true)
      case Threw => if c.blockOnError then Return(Outcome(BLOCK, FromAction), true) else quiet
  }

  /** The rule loop from position k of the order on. */
  function RunRules(g: Guard, v: Visit, scope: Text, c: Config, env: Env, order: seq<nat>, k: nat): (Guard, Option<Outcome>)
    requires Indices(order, |c.rules|) && k <= |order|
    decreases |order| - k
  {
    if k == |order| then (g, None)
    else
      var rule := c.rules[order[k]];
      if !Considers(rule, v, env) || !CanTrigger(g.lastTrigger, rule, v.checkedAt(k)) then
        RunRules(g, v, scope, c, env, order, k + 1)
      else
        var triggered := g.(lastTrigger := g.lastTrigger[rule.id := v.checkedAt(k)]);
        match EffectOf(rule, v.answers(k), c)
        case Skip => RunRules(triggered, v, scope, c, env, order, k + 1)
        case Return(outcome, record) =>
          (if record then Record(triggered, scope, outcome.decision, c, v.now) else triggered, Some(outcome))
  }

  function Evaluate(g: Guard, v: Visit, c: Config, env: Env, leq: KeyOrder): (Guard, Option<Outcome>) {
    if !c.enabled then (g, None)
    else
      var scope := ScopeKey(v.call.toolName, v.call.params, c.mode, leq);
      var clean := Cleanup(g, v.now, c.retryBackoffMs);
      if scope in clean.blocked then (clean, Some(Outcome(BLOCK, FromBackoff)))
      else if scope in clean.cache then (clean, Some(Outcome(Decision(Some(false), clean.cache[scope].patch), FromCache)))
      else RunRules(clean, v, scope, c, env, OrderOf(c.rules, |c.rules|), 0)
  }
}
