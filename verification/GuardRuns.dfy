/**
 * Whole runs of the tool guard: the backoff table and the approval cache agree with evaluating
 * the rules afresh, the best rule decides, a block holds for the whole backoff, a cache hit
 * repeats a recent approval, no scope is both blocked and approved, and triggers of a rule are
 * a cooldown apart however evaluations interleave.
 */
module GuardRuns {
  import opened Options
  import opened JsonText
  import opened StableJson
  import opened ScopeKeys
  import opened GuardRules
  import opened GuardDistinctions
  import opened GuardSteps

  /** What stays fixed during a run. */
  datatype Setup = Setup(config: Config, env: Env, leq: KeyOrder)

  function ScopeOf(v: Visit, s: Setup): Text {
    ScopeKey(v.call.toolName, v.call.params, s.config.mode, s.leq)
  }

  /** The guard after the first n calls. */
  function After(visits: seq<Visit>, n: nat, s: Setup): Guard
    requires n <= |visits|
  {
    if n == 0 then EMPTY
    else Evaluate(After(visits, n - 1, s), visits[n - 1], s.config, s.env, s.leq).0
  }

  /** What call n is told. */
  function Told(visits: seq<Visit>, n: nat, s: Setup): Option<Outcome>
    requires n < |visits|
  {
    Evaluate(After(visits, n, s), visits[n], s.config, s.env, s.leq).1
  }

  /** What a guard with empty tables would tell the call. */
  function Afresh(v: Visit, s: Setup): Option<Outcome> {
    Evaluate(EMPTY, v, s.config, s.env, s.leq).1
  }

  // ---------------------------------------------------------------- what one evaluation does to the tables

  /** The outcome came from a rule's or an action's decision. */
  predicate Judged(o: Option<Outcome>) {
    o.Some? && (o.value.source == FromRule || o.value.source == FromAction)
  }

  predicate SameTables(g: Guard, h: Guard) {
    g.blocked == h.blocked && g.cache == h.cache
  }

  /** Exactly the judged outcomes are recorded. */
  lemma JudgedAreRecorded(rule: Rule, answer: Answer, c: Config)
    ensures var e := EffectOf(rule, answer, c);
      e.Return? ==> (e.record == Judged(Some(e.outcome)) && e.outcome.source != FromBackoff && e.outcome.source != FromCache)
  {
  }

  lemma RecordIgnoresTriggers(g: Guard, last: map<RuleId, int>, scope: Text, d: Decision, c: Config, now: int)
    ensures SameTables(Record(g.(lastTrigger := last), scope, d, c, now), Record(g, scope, d, c, now))
  {
  }

  lemma {:induction false} RunTables(g: Guard, v: Visit, scope: Text, c: Config, env: Env, order: seq<nat>, k: nat)
    requires Indices(order, |c.rules|) && k <= |order|
    ensures var (h, o) := RunRules(g, v, scope, c, env, order, k);
      && SameTables(h, if Judged(o) then Record(g, scope, o.value.decision, c, v.now) else g)
      && (o.Some? ==> o.value.source != FromBackoff && o.value.source != FromCache)
    decreases |order| - k
  {
    hide Considers, CanTrigger, EffectOf, Record;
    if k < |order| {
      var rule := c.rules[order[k]];
      if !Considers(rule, v, env) || !CanTrigger(g.lastTrigger, rule, v.checkedAt(k)) {
        RunTables(g, v, scope, c, env, order, k + 1);
      } else {
        var last := g.lastTrigger[rule.id := v.checkedAt(k)];
        JudgedAreRecorded(rule, v.answers(k), c);
        RunTables(g.(lastTrigger := last), v, scope, c, env, order, k + 1);
        var o := RunRules(g, v, scope, c, env, order, k).1;
        if o.Some? {
          RecordIgnoresTriggers(g, last, scope, o.value.decision, c, v.now);
        }
      }
    }
  }

  /** An evaluation cleans both tables and records a judged decision, of a scope in neither. */
  lemma EvaluateTables(g: Guard, v: Visit, s: Setup)
    requires s.config.enabled
    ensures var (h, o) := Evaluate(g, v, s.config, s.env, s.leq);
      var clean := Cleanup(g, v.now, s.config.retryBackoffMs);
      && SameTables(h, if Judged(o) then Record(clean, ScopeOf(v, s), o.value.decision, s.config, v.now) else clean)
      && (Judged(o) ==> ScopeOf(v, s) !in clean.blocked && ScopeOf(v, s) !in clean.cache)
      && (ScopeOf(v, s) in clean.blocked <==> o.Some? && o.value.source == FromBackoff)
      && (o.Some? && o.value.source == FromCache ==> ScopeOf(v, s) in clean.cache)
  {
    var clean := Cleanup(g, v.now, s.config.retryBackoffMs);
    RunTables(clean, v, ScopeOf(v, s), s.config, s.env, OrderOf(s.config.rules, |s.config.rules|), 0);
    hide RunRules, OrderOf, ScopeKey, LiveApprovals, LiveBlocks, Record;
  }

  lemma {:induction false} DisabledStaysEmpty(visits: seq<Visit>, n: nat, s: Setup)
    requires n <= |visits| && !s.config.enabled
    ensures After(visits, n, s) == EMPTY
  {
    if n > 0 {
      DisabledStaysEmpty(visits, n - 1, s);
    }
  }

  /** In sequential runs no scope is both blocked and approved. */
  lemma {:induction false} NeverBlockedAndApproved(visits: seq<Visit>, n: nat, s: Setup)
    requires n <= |visits|
    ensures After(visits, n, s).blocked.Keys !! After(visits, n, s).cache.Keys
  {
    if !s.config.enabled {
      DisabledStaysEmpty(visits, n, s);
    } else if n > 0 {
      NeverBlockedAndApproved(visits, n - 1, s);
      EvaluateTables(After(visits, n - 1, s), visits[n - 1], s);
      hide Evaluate, ScopeKey;
    }
  }

  // ---------------------------------------------------------------- agreement with plain rule evaluation

  /** Static decisions, no cooldown, and conditions on the tool name and the parameters only. */
  ghost predicate CallRules(c: Config, head: set<Text>) {
    forall i :: 0 <= i < |c.rules| ==>
      c.rules[i].body.Static? && c.rules[i].cooldownMs <= 0 && ReadsOnlyCall(c.rules[i].when, head)
  }

  /** The event is the one built for the call; its parameters are a JSON object. */
  ghost predicate Genuine(v: Visit, head: set<Text>) {
    v.event.data == CallData(v.call) && v.event.head.Keys == head && Valid(v.call.params) && v.call.params.Obj?
  }

  ghost predicate Comparable(s: Setup, head: set<Text>) {
    s.config.enabled && s.config.mode.ToolAndParams? && TotalOrder(s.leq) && CallRules(s.config, head)
  }

  predicate SameScope(v: Visit, w: Visit, leq: KeyOrder) {
    ScopeKey(v.call.toolName, v.call.params, ToolAndParams, leq) == ScopeKey(w.call.toolName, w.call.params, ToolAndParams, leq)
  }

  lemma SameScopeOf(v: Visit, w: Visit, s: Setup)
    requires s.config.mode == ToolAndParams
    ensures SameScope(v, w, s.leq) <==> ScopeOf(v, s) == ScopeOf(w, s)
  {
  }

  predicate AlikeCalls(v: Visit, w: Visit, env: Env) {
    Alike(v.call.params, w.call.params, env.inherited.byObjects)
  }

  lemma SameScopeSameTool(v: Visit, w: Visit, leq: KeyOrder, head: set<Text>)
    requires TotalOrder(leq) && Genuine(v, head) && Genuine(w, head) && SameScope(v, w, leq)
    ensures v.call.toolName == w.call.toolName
  {
    ScopeKeyIdentifies(v.call.toolName, v.call.params, w.call.toolName, w.call.params, leq);
    hide ScopeKey, Same, Valid, TotalOrder;
  }

  lemma AlikeCallsMatchAlike(v: Visit, w: Visit, env: Env, head: set<Text>, rule: Rule)
    requires Genuine(v, head) && Genuine(w, head) && ReadsOnlyCall(rule.when, head)
    requires v.call.toolName == w.call.toolName && AlikeCalls(v, w, env)
    ensures Considers(rule, v, env) == Considers(rule, w, env)
  {
    hide Valid, ReadsOnlyCall, MatchesRule, CallData, Alike;
    MatchDependsOnCall(v.event, w.event, v.call, w.call, rule.when, env);
  }

  lemma {:induction false} RunIgnoresState(g: Guard, v: Visit, p: Text, h: Guard, w: Visit, q: Text,
                                          c: Config, env: Env, order: seq<nat>, k: nat)
    requires Indices(order, |c.rules|) && k <= |order|
    requires forall i :: 0 <= i < |c.rules| ==> c.rules[i].body.Static? && c.rules[i].cooldownMs <= 0
    requires forall i :: 0 <= i < |c.rules| ==> Considers(c.rules[i], v, env) == Considers(c.rules[i], w, env)
    ensures RunRules(g, v, p, c, env, order, k).1 == RunRules(h, w, q, c, env, order, k).1
    decreases |order| - k
  {
    hide MatchesRule, Considers;
    if k < |order| {
      var rule := c.rules[order[k]];
      RunIgnoresState(g, v, p, h, w, q, c, env, order, k + 1);
      RunIgnoresState(g.(lastTrigger := g.lastTrigger[rule.id := v.checkedAt(k)]), v, p,
                      h.(lastTrigger := h.lastTrigger[rule.id := w.checkedAt(k)]), w, q, c, env, order, k + 1);
    }
  }

  /** A call whose scope is in neither table is told what an alike call of the scope is told afresh. */
  lemma RulesTellTheSame(g: Guard, v: Visit, w: Visit, s: Setup, head: set<Text>)
    requires Comparable(s, head) && Genuine(v, head) && Genuine(w, head) && SameScope(v, w, s.leq) && AlikeCalls(v, w, s.env)
    requires var clean := Cleanup(g, v.now, s.config.retryBackoffMs); ScopeOf(v, s) !in clean.blocked && ScopeOf(v, s) !in clean.cache
    ensures Evaluate(g, v, s.config, s.env, s.leq).1 == Afresh(w, s)
  {
    SameScopeSameTool(v, w, s.leq, head);
    forall i | 0 <= i < |s.config.rules|
      ensures Considers(s.config.rules[i], v, s.env) == Considers(s.config.rules[i], w, s.env)
    {
      AlikeCallsMatchAlike(v, w, s.env, head, s.config.rules[i]);
    }
    hide RunRules, Considers, OrderOf, ScopeKey, Alike;
    RunIgnoresState(Cleanup(g, v.now, s.config.retryBackoffMs), v, ScopeOf(v, s),
                    Cleanup(EMPTY, w.now, s.config.retryBackoffMs), w, ScopeOf(w, s),
                    s.config, s.env, OrderOf(s.config.rules, |s.config.rules|), 0);
  }

  predicate BlockedAfresh(o: Option<Outcome>) {
    o.Some? && Blocks(o.value.decision)
  }

  predicate ApprovedAfresh(o: Option<Outcome>, patch: Option<Json>) {
    o.Some? && !Blocks(o.value.decision) && o.value.decision.patch == patch
  }

  /** What the tables hold for the call's scope is what the rules say about the call. */
  predicate TablesTellTruth(g: Guard, w: Visit, s: Setup) {
    && (ScopeOf(w, s) in g.blocked ==> BlockedAfresh(Afresh(w, s)))
    && (ScopeOf(w, s) in g.cache ==> ApprovedAfresh(Afresh(w, s), g.cache[ScopeOf(w, s)].patch))
  }

  lemma StepKeepsTruth(g: Guard, v: Visit, w: Visit, s: Setup, head: set<Text>)
    requires Comparable(s, head) && Genuine(v, head) && Genuine(w, head) && TablesTellTruth(g, w, s)
    requires SameScope(v, w, s.leq) ==> AlikeCalls(v, w, s.env)
    ensures TablesTellTruth(Evaluate(g, v, s.config, s.env, s.leq).0, w, s)
  {
    EvaluateTables(g, v, s);
    var o := Evaluate(g, v, s.config, s.env, s.leq).1;
    SameScopeOf(v, w, s);
    if Judged(o) && SameScope(v, w, s.leq) {
      RulesTellTheSame(g, v, w, s, head);
    }
    hide Evaluate, ScopeOf, Afresh, Genuine, Comparable, AlikeCalls;
  }

  /** The calls before the n-th one that share its scope are alike to it. */
  predicate SharersAlike(visits: seq<Visit>, n: nat, leq: KeyOrder, env: Env)
    requires n < |visits|
  {
    forall i :: 0 <= i < n && SameScope(visits[i], visits[n], leq) ==> AlikeCalls(visits[i], visits[n], env)
  }

  lemma {:induction false} ReachedTablesTellTruth(visits: seq<Visit>, k: nat, n: nat, s: Setup, head: set<Text>)
    requires k <= n < |visits| && Comparable(s, head) && SharersAlike(visits, n, s.leq, s.env)
    requires forall i :: 0 <= i <= n ==> Genuine(visits[i], head)
    ensures TablesTellTruth(After(visits, k, s), visits[n], s)
  {
    hide Genuine, SameScope, AlikeCalls, TablesTellTruth, Comparable;
    if k > 0 {
      ReachedTablesTellTruth(visits, k - 1, n, s, head);
      StepKeepsTruth(After(visits, k - 1, s), visits[k - 1], visits[n], s, head);
    } else {
      EmptyTellsTruth(visits[n], s);
    }
  }

  lemma EmptyTellsTruth(w: Visit, s: Setup)
    ensures TablesTellTruth(EMPTY, w, s)
  {
  }

  /** The n-th call is told the block verdict, and unless blocked the parameter patch, that the rules give afresh. */
  predicate Agrees(visits: seq<Visit>, n: nat, s: Setup)
    requires n < |visits|
  {
    var told, afresh := Told(visits, n, s), Afresh(visits[n], s);
    told.Some? == afresh.Some? && (told.Some? ==>
      && Blocks(told.value.decision) == Blocks(afresh.value.decision)
      && (!Blocks(told.value.decision) ==> told.value.decision.patch == afresh.value.decision.patch))
  }

  predicate InBackoff(visits: seq<Visit>, n: nat, s: Setup)
    requires n < |visits|
  {
    ScopeOf(visits[n], s) in Cleanup(After(visits, n, s), visits[n].now, s.config.retryBackoffMs).blocked
  }

  /**
   * After any run, whatever the clock did, a call is told what the rules say, as long as the
   * earlier calls that share its scope are alike to it. The patch of a decision is lost exactly
   * when the scope is in its backoff, and then the decision is a block.
   */
  lemma GuardAgreesWithRules(visits: seq<Visit>, n: nat, s: Setup, head: set<Text>)
    requires n < |visits| && Comparable(s, head) && SharersAlike(visits, n, s.leq, s.env)
    requires forall i :: 0 <= i <= n ==> Genuine(visits[i], head)
    ensures Agrees(visits, n, s)
    ensures var told, afresh := Told(visits, n, s), Afresh(visits[n], s);
      afresh.Some? ==> (told.value.decision.patch != afresh.value.decision.patch
                        <==> InBackoff(visits, n, s) && afresh.value.decision.patch.Some?)
  {
    var g, v := After(visits, n, s), visits[n];
    ReachedTablesTellTruth(visits, n, n, s, head);
    EvaluateTables(g, v, s);
    var clean := Cleanup(g, v.now, s.config.retryBackoffMs);
    if ScopeOf(v, s) !in clean.blocked && ScopeOf(v, s) !in clean.cache {
      AlikeToItself(v, s.env, head);
      RulesTellTheSame(g, v, v, s, head);
    }
    hide RunRules, OrderOf, ScopeKey, Genuine, Comparable, Afresh, After, Alike;
  }

  lemma AlikeToItself(v: Visit, env: Env, head: set<Text>)
    requires Genuine(v, head)
    ensures AlikeCalls(v, v, env)
  {
    UnitOrderIsTotal();
    StableStringifyIsCanonical(v.call.params, v.call.params);
    SameIsAlike(v.call.params, v.call.params, env.inherited.byObjects);
  }

  // ---------------------------------------------------------------- the agreement fails for unlike calls of one scope

  /** One condition, and whether the calls it holds of are the blocked ones or all others are. */
  function Separating(c: Check, blocksIt: bool, backoff: int): Config {
    var it := When(Anything, [], [c]);
    var rest := When(Anything, [], []);
    var rules := if blocksIt then [Rule("it", true, 1, it, Static(BLOCK), None, 0)]
                 else [Rule("it", true, 1, it, Static(NOTHING), None, 0), Rule("rest", true, 0, rest, Static(BLOCK), None, 0)];
    Config(true, false, false, ToolAndParams, backoff, 0, false, rules)
  }

  predicate Holds(c: Check, v: Visit, env: Env) {
    Passes(c, ReadPath(v.event, c.path, env.inherited), env)
  }

  /** The rules block exactly the calls on one side of the condition, and record nothing for the others. */
  lemma SeparatingRuns(g: Guard, v: Visit, scope: Text, c: Check, blocksIt: bool, backoff: int, env: Env)
    ensures var config := Separating(c, blocksIt, backoff);
      var o := RunRules(g, v, scope, config, env, OrderOf(config.rules, |config.rules|), 0).1;
      if Holds(c, v, env) == blocksIt then o == Some(Outcome(BLOCK, FromRule)) else !BlockedAfresh(o)
  {
    var config := Separating(c, blocksIt, backoff);
    SeparatingOrder(c, blocksIt, backoff);
    SeparatingMatches(c, blocksIt, backoff, v, env);
    hide MatchesRule, OrderOf, Holds;
    if blocksIt {
      assert RunRules(g, v, scope, config, env, [0], 1).1 == None;
    } else {
      assert RunRules(g, v, scope, config, env, [0, 1], 2).1 == None;
      assert Considers(config.rules[1], v, env);
      assert RunRules(g, v, scope, config, env, [0, 1], 1).1 == Some(Outcome(BLOCK, FromRule));
    }
  }

  lemma SeparatingOrder(c: Check, blocksIt: bool, backoff: int)
    ensures var rules := Separating(c, blocksIt, backoff).rules; OrderOf(rules, |rules|) == if blocksIt then [0] else [0, 1]
  {
    var rules := Separating(c, blocksIt, backoff).rules;
    assert OrderOf(rules, 0) == [] && OrderOf(rules, 1) == [0];
    if !blocksIt {
      assert [0][1..] == [];
      assert InsertIndex(rules, [0], 1) == [0] + InsertIndex(rules, [], 1);
    }
  }

  lemma SeparatingMatches(c: Check, blocksIt: bool, backoff: int, v: Visit, env: Env)
    ensures var rules := Separating(c, blocksIt, backoff).rules;
      Considers(rules[0], v, env) == Holds(c, v, env) && (!blocksIt ==> Considers(rules[1], v, env))
  {
    var rules := Separating(c, blocksIt, backoff).rules;
    var it := rules[0].when;
    assert it.checks == [c] && it.others == [] && it.toolName == Anything;
    hide Passes, ReadPath;
    assert MatchesRule(v.event, it, env) == Passes(it.checks[0], ReadPath(v.event, it.checks[0].path, env.inherited), env);
  }

  ghost predicate IsSeparating(s: Setup, c: Check, blocksIt: bool) {
    s.config == Separating(c, blocksIt, s.config.retryBackoffMs)
  }

  lemma SeparatingConfig(s: Setup, c: Check, blocksIt: bool)
    requires IsSeparating(s, c, blocksIt)
    ensures s.config.enabled && s.config.mode == ToolAndParams && s.config.approvalCacheTtlMs == 0
  {
  }

  /** A call whose scope is not in backoff is judged by the separating rules. */
  lemma SeparatingVerdict(g: Guard, v: Visit, s: Setup, c: Check, blocksIt: bool)
    requires IsSeparating(s, c, blocksIt) && g.cache == map[]
    requires ScopeOf(v, s) !in Cleanup(g, v.now, s.config.retryBackoffMs).blocked
    ensures var o := Evaluate(g, v, s.config, s.env, s.leq).1;
      if Holds(c, v, s.env) == blocksIt then o == Some(Outcome(BLOCK, FromRule)) else !BlockedAfresh(o)
  {
    SeparatingConfig(s, c, blocksIt);
    SeparatingRuns(Cleanup(g, v.now, s.config.retryBackoffMs), v, ScopeOf(v, s), c, blocksIt, s.config.retryBackoffMs, s.env);
    hide RunRules, ScopeKey, OrderOf, Holds, Separating, LiveBlocks;
  }

  predicate NoTrace(g: Guard, scope: Text) {
    scope !in g.blocked && g.cache == map[]
  }

  lemma StepLeavesNoTrace(g: Guard, v: Visit, s: Setup, c: Check, blocksIt: bool, w: Visit)
    requires IsSeparating(s, c, blocksIt) && NoTrace(g, ScopeOf(w, s))
    requires SameScope(v, w, s.leq) ==> Holds(c, v, s.env) != blocksIt
    ensures NoTrace(Evaluate(g, v, s.config, s.env, s.leq).0, ScopeOf(w, s))
  {
    SeparatingConfig(s, c, blocksIt);
    EvaluateTables(g, v, s);
    SameScopeOf(v, w, s);
    if ScopeOf(v, s) == ScopeOf(w, s) {
      SeparatingVerdict(g, v, s, c, blocksIt);
    }
    hide Evaluate, ScopeOf, Holds, IsSeparating, SameScope;
  }

  /** Before the first call on the blocked side, no call of the scope has left a trace. */
  lemma {:induction false} NoTraceYet(visits: seq<Visit>, k: nat, s: Setup, c: Check, blocksIt: bool, w: Visit)
    requires k <= |visits| && IsSeparating(s, c, blocksIt)
    requires forall i :: 0 <= i < k && SameScope(visits[i], w, s.leq) ==> Holds(c, visits[i], s.env) != blocksIt
    ensures NoTrace(After(visits, k, s), ScopeOf(w, s))
  {
    hide Evaluate, ScopeOf, Holds, IsSeparating, SameScope;
    if k > 0 {
      NoTraceYet(visits, k - 1, s, c, blocksIt, w);
      StepLeavesNoTrace(After(visits, k - 1, s), visits[k - 1], s, c, blocksIt, w);
    }
  }

  function LatestNow(visits: seq<Visit>, k: nat): int
    requires 0 < k <= |visits|
  {
    if k == 1 then visits[0].now else if visits[k - 1].now > LatestNow(visits, k - 1) then visits[k - 1].now else LatestNow(visits, k - 1)
  }

  lemma {:induction false} NoneLater(visits: seq<Visit>, k: nat)
    requires 0 < k <= |visits|
    ensures forall i :: 0 <= i < k ==> visits[i].now <= LatestNow(visits, k)
  {
    if k > 1 {
      NoneLater(visits, k - 1);
    }
  }

  lemma FirstIsBlocked(visits: seq<Visit>, i: nat, s: Setup, c: Check, blocksIt: bool, w: Visit)
    requires i < |visits| && IsSeparating(s, c, blocksIt) && SameScope(visits[i], w, s.leq) && Holds(c, visits[i], s.env) == blocksIt
    requires forall j :: 0 <= j < i && SameScope(visits[j], w, s.leq) ==> Holds(c, visits[j], s.env) != blocksIt
    ensures Told(visits, i, s) == Some(Outcome(BLOCK, FromRule))
  {
    NoTraceYet(visits, i, s, c, blocksIt, w);
    SeparatingConfig(s, c, blocksIt);
    SameScopeOf(visits[i], w, s);
    SeparatingVerdict(After(visits, i, s), visits[i], s, c, blocksIt);
    hide Evaluate, ScopeOf, Holds, IsSeparating, SameScope, After;
  }

  lemma BackoffDisagrees(visits: seq<Visit>, n: nat, s: Setup)
    requires n < |visits| && Told(visits, n, s) == Some(Outcome(BLOCK, FromBackoff)) && !BlockedAfresh(Afresh(visits[n], s))
    ensures !Agrees(visits, n, s)
  {
    hide Told, Afresh;
  }

  lemma AllowedAfresh(w: Visit, s: Setup, c: Check, blocksIt: bool)
    requires IsSeparating(s, c, blocksIt) && Holds(c, w, s.env) != blocksIt
    ensures !BlockedAfresh(Afresh(w, s))
  {
    hide Evaluate, ScopeOf, Holds, IsSeparating;
    SeparatingVerdict(EMPTY, w, s, c, blocksIt);
  }

  /** The first unlike call of the scope is blocked, and the call is told so although the rules allow it. */
  lemma UnlikeCallDisagrees(visits: seq<Visit>, i: nat, n: nat, s: Setup, c: Check, blocksIt: bool)
    requires i < n < |visits| && IsSeparating(s, c, blocksIt) && SameScope(visits[i], visits[n], s.leq)
    requires forall j :: 0 <= j < i && SameScope(visits[j], visits[n], s.leq) ==> Holds(c, visits[j], s.env) != blocksIt
    requires Holds(c, visits[i], s.env) == blocksIt && Holds(c, visits[n], s.env) != blocksIt
    requires s.config.retryBackoffMs > LatestNow(visits, n + 1) - visits[i].now
    ensures !Agrees(visits, n, s)
  {
    hide ScopeOf, Holds, IsSeparating, LatestNow, After, SameScope, Told, Evaluate, Afresh, Agrees, BlockedAfresh;
    SeparatingConfig(s, c, blocksIt);
    SameScopeOf(visits[i], visits[n], s);
    NoneLater(visits, n + 1);
    FirstIsBlocked(visits, i, s, c, blocksIt, visits[n]);
    AllowedAfresh(visits[n], s, c, blocksIt);
    BackoffBlocksWithoutRules(visits, i, n, s);
    BackoffDisagrees(visits, n, s);
  }

  lemma CallPathReads(v: Visit, c: Check, env: Env, head: set<Text>)
    requires Genuine(v, head)
    ensures Holds(Under(DATA, Under(PARAMS, c)), v, env) == Passes(c, Descend(Got(v.call.params), c.path, env.inherited), env)
  {
    var path := [DATA] + ([PARAMS] + c.path);
    CallFields(v.call);
    PathDoesNotMatter(c, path, Descend(Got(v.call.params), c.path, env.inherited), env);
    hide Passes, CallData, FieldValue, Valid;
    assert path[1..] == [PARAMS] + c.path && path[1..][1..] == c.path;
    assert Property(Got(v.event.data), PARAMS, env.inherited) == Got(v.call.params);
    assert Descend(Got(v.event.data), path[1..], env.inherited) == Descend(Got(v.call.params), c.path, env.inherited);
  }

  lemma SeparatingIsComparable(c: Check, blocksIt: bool, backoff: int, env: Env, leq: KeyOrder, head: set<Text>)
    requires TotalOrder(leq) && ComparesScalars(c) && forall i :: 0 <= i < |c.path| ==> Segment(c.path[i])
    ensures Comparable(Setup(Separating(Under(DATA, Under(PARAMS, c)), blocksIt, backoff), env, leq), head)
  {
    var a := Under(DATA, Under(PARAMS, c));
    ToolNamePath(head);
    PathDoesNotMatter(c, a.path, Absent, env);
    assert a.path == [DATA] + ([PARAMS] + c.path);
    hide Segment, ComparesScalars, TotalOrder;
    assert CallPath(a.path, head);
  }

  /** Two setups apart from which nothing else is needed: an unlike earlier call of the scope shows in one of them. */
  lemma SomeSetupDisagrees(visits: seq<Visit>, n: nat, env: Env, leq: KeyOrder, head: set<Text>) returns (s: Setup)
    requires n < |visits| && TotalOrder(leq) && !SharersAlike(visits, n, leq, env)
    requires forall i :: 0 <= i <= n ==> Genuine(visits[i], head)
    ensures Comparable(s, head) && s.leq == leq && s.env == env && !Agrees(visits, n, s)
  {
    var i := FirstUnlike(visits, n, env, leq);
    var w := visits[n];
    var c := TellApart(visits[i].call.params, w.call.params, env);
    var a := Under(DATA, Under(PARAMS, c));
    CallPathReads(visits[i], c, env, head);
    CallPathReads(w, c, env, head);
    var blocksIt := Holds(a, visits[i], env);
    s := Setup(Separating(a, blocksIt, if LatestNow(visits, n + 1) - visits[i].now + 1 > 1 then LatestNow(visits, n + 1) - visits[i].now + 1 else 1), env, leq);
    SeparatingIsComparable(c, blocksIt, s.config.retryBackoffMs, env, leq, head);
    forall j | 0 <= j < i && SameScope(visits[j], w, leq) ensures Holds(a, visits[j], env) != blocksIt {
      SharerHoldsAlike(visits[j], w, c, env, leq, head);
    }
    hide Holds, Agrees, SameScope, Under, LatestNow, Tells, Genuine, Comparable;
    UnlikeCallDisagrees(visits, i, n, s, a, blocksIt);
  }

  lemma FirstUnlike(visits: seq<Visit>, n: nat, env: Env, leq: KeyOrder) returns (i: nat)
    requires n < |visits| && !SharersAlike(visits, n, leq, env)
    ensures i < n && SameScope(visits[i], visits[n], leq) && !AlikeCalls(visits[i], visits[n], env)
    ensures forall j :: 0 <= j < i && SameScope(visits[j], visits[n], leq) ==> AlikeCalls(visits[j], visits[n], env)
  {
    hide SameScope, AlikeCalls;
    i := 0;
    while !(SameScope(visits[i], visits[n], leq) && !AlikeCalls(visits[i], visits[n], env))
      invariant i < n
      invariant forall j :: 0 <= j < i && SameScope(visits[j], visits[n], leq) ==> AlikeCalls(visits[j], visits[n], env)
      decreases n - i
    {
      assert exists k :: i < k < n && SameScope(visits[k], visits[n], leq) && !AlikeCalls(visits[k], visits[n], env);
      i := i + 1;
    }
  }

  lemma SharerHoldsAlike(v: Visit, w: Visit, c: Check, env: Env, leq: KeyOrder, head: set<Text>)
    requires Genuine(v, head) && Genuine(w, head) && AlikeCalls(v, w, env) && ComparesScalars(c)
    requires forall i :: 0 <= i < |c.path| ==> Segment(c.path[i])
    ensures var a := Under(DATA, Under(PARAMS, c)); Holds(a, v, env) == Holds(a, w, env)
  {
    CallPathReads(v, c, env, head);
    CallPathReads(w, c, env, head);
    GotAlike(v.call.params, w.call.params, env.inherited.byObjects);
    hide Holds, Under, Passes, Segment, Alike, ComparesScalars;
    DescendAlike(Got(v.call.params), Got(w.call.params), c.path, env.inherited);
    PassesAlike(c, Descend(Got(v.call.params), c.path, env.inherited), Descend(Got(w.call.params), c.path, env.inherited), env);
  }

  /**
   * In every such setup a call is told what the rules say, if and only if every earlier call that
   * shares its scope is alike to it.
   */
  lemma AgreementIff(visits: seq<Visit>, n: nat, env: Env, leq: KeyOrder, head: set<Text>)
    requires n < |visits| && TotalOrder(leq) && forall i :: 0 <= i <= n ==> Genuine(visits[i], head)
    ensures (forall s: Setup :: Comparable(s, head) && s.leq == leq && s.env == env ==> Agrees(visits, n, s))
      <==> SharersAlike(visits, n, leq, env)
  {
    hide Comparable, Agrees, SharersAlike, Genuine, TotalOrder;
    if SharersAlike(visits, n, leq, env) {
      forall s: Setup | Comparable(s, head) && s.leq == leq && s.env == env ensures Agrees(visits, n, s) {
        GuardAgreesWithRules(visits, n, s, head);
      }
    } else {
      var s := SomeSetupDisagrees(visits, n, env, leq, head);
    }
  }

  /** Calls without the key __proto__ that share a scope are always alike. */
  lemma ProtoFreeSharersAlike(v: Visit, w: Visit, leq: KeyOrder, env: Env, head: set<Text>)
    requires TotalOrder(leq) && Genuine(v, head) && Genuine(w, head) && SameScope(v, w, leq)
    requires ProtoFree(v.call.params) && ProtoFree(w.call.params)
    ensures AlikeCalls(v, w, env)
  {
    var p, q := v.call.params, w.call.params;
    ScopeKeyIdentifies(v.call.toolName, p, w.call.toolName, q, leq);
    hide ScopeKey, Alike, TotalOrder, Valid;
    ProtoFreeSame(p, q, NotProto, KeepAll);
    SameIsAlike(p, q, env.inherited.byObjects);
  }

  /** In runs without the key __proto__ in parameters, every call gets the verdict of the rules under all of them. */
  lemma ProtoFreeRunsAgree(visits: seq<Visit>, n: nat, s: Setup, head: set<Text>)
    requires n < |visits| && Comparable(s, head)
    requires forall i :: 0 <= i <= n ==> Genuine(visits[i], head) && ProtoFree(visits[i].call.params)
    ensures Agrees(visits, n, s)
  {
    assert TotalOrder(s.leq);
    hide Comparable, Agrees, Genuine, TotalOrder, SameScope, AlikeCalls;
    forall i | 0 <= i < n && SameScope(visits[i], visits[n], s.leq) ensures AlikeCalls(visits[i], visits[n], s.env) {
      ProtoFreeSharersAlike(visits[i], visits[n], s.leq, s.env, head);
    }
    GuardAgreesWithRules(visits, n, s, head);
  }

  /** A __proto__ parameter that no rule can tell from its absence is harmless, and any other one is not. */
  lemma ProtoKeyAlikeIff(value: Json, members: set<Text>)
    requires Valid(value)
    ensures Alike(Obj([Field(PROTO, value)]), Obj([]), members) <==> LikeObjectPrototype(value, members)
  {
    var fields := [Field(PROTO, value)];
    ProtoIsSegment();
    assert FieldValue([], PROTO) == None;
    assert AlikeField(fields[0], [], members) == LikeObjectPrototype(value, members);
    hide LikeObjectPrototype, Segment;
  }

  // ---------------------------------------------------------------- a lost patch

  /** A blocking decision with a patch: the second of two equal calls is blocked without it. */
  lemma BackoffLosesPatch(call: Call, patch: Json, env: Env, leq: KeyOrder)
    ensures var rule := Rule("r", true, 0, When(Anything, [], []), Static(Decision(Some(true), Some(patch))), None, 0);
      var s := Setup(Config(true, false, false, ToolAndParams, 10, 0, false, [rule]), env, leq);
      var v := Visit(call, Event(map[], CallData(call)), 1, k => 1, k => Missing);
      && Told([v, v], 0, s) == Some(Outcome(Decision(Some(true), Some(patch)), FromRule))
      && Told([v, v], 1, s) == Some(Outcome(BLOCK, FromBackoff))
  {
    var rule := Rule("r", true, 0, When(Anything, [], []), Static(Decision(Some(true), Some(patch))), None, 0);
    var s := Setup(Config(true, false, false, ToolAndParams, 10, 0, false, [rule]), env, leq);
    var v := Visit(call, Event(map[], CallData(call)), 1, k => 1, k => Missing);
    var visits := [v, v];
    hide CallData, ReadPath, ScopeKey;
    assert OrderOf(s.config.rules, 0) == [] && OrderOf(s.config.rules, 1) == [0];
    assert Considers(rule, v, env);
    assert RunRules(Cleanup(EMPTY, 1, 10), v, ScopeOf(v, s), s.config, env, [0], 0).1
        == Some(Outcome(Decision(Some(true), Some(patch)), FromRule));
    hide RunRules, Considers, OrderOf;
    assert After(visits, 0, s) == EMPTY;
    BackoffBlocksWithoutRules(visits, 0, 1, s);
  }

  // ---------------------------------------------------------------- the best rule decides

  /** At position k of the order is a rule that matches and is out of its cooldown. */
  predicate Eligible(g: Guard, v: Visit, c: Config, env: Env, order: seq<nat>, k: nat)
    requires Indices(order, |c.rules|) && k < |order|
  {
    Considers(c.rules[order[k]], v, env) && CanTrigger(g.lastTrigger, c.rules[order[k]], v.checkedAt(k))
  }

  lemma {:induction false} FirstEligible(g: Guard, v: Visit, scope: Text, c: Config, env: Env, order: seq<nat>, k: nat) returns (p: nat)
    requires Indices(order, |c.rules|) && k <= |order| && !c.dryRun
    requires forall i :: 0 <= i < |c.rules| ==> c.rules[i].body.Static?
    ensures k <= p <= |order| && forall q :: k <= q < p ==> !Eligible(g, v, c, env, order, q)
    ensures p < |order| ==> Eligible(g, v, c, env, order, p)
    ensures RunRules(g, v, scope, c, env, order, k).1
         == if p == |order| then None else Some(Outcome(c.rules[order[p]].body.decision, FromRule))
    decreases |order| - k
  {
    hide MatchesRule, CanTrigger;
    p := k;
    if k < |order| && !Eligible(g, v, c, env, order, k) {
      p := FirstEligible(g, v, scope, c, env, order, k + 1);
    }
  }

  /** With static decisions the eligible rule that precedes all other eligible ones decides. */
  lemma BestRuleDecides(g: Guard, v: Visit, scope: Text, c: Config, env: Env, p: nat)
    requires !c.dryRun && forall i :: 0 <= i < |c.rules| ==> c.rules[i].body.Static?
    requires p < |OrderOf(c.rules, |c.rules|)| && Eligible(g, v, c, env, OrderOf(c.rules, |c.rules|), p)
    requires var order := OrderOf(c.rules, |c.rules|);
      forall q :: 0 <= q < |order| && q != p && Eligible(g, v, c, env, order, q) ==> Precedes(c.rules, order[p], order[q])
    ensures var order := OrderOf(c.rules, |c.rules|);
      RunRules(g, v, scope, c, env, order, 0).1 == Some(Outcome(c.rules[order[p]].body.decision, FromRule))
  {
    var order := OrderOf(c.rules, |c.rules|);
    OrderIsSorted(c.rules, |c.rules|);
    var q := FirstEligible(g, v, scope, c, env, order, 0);
    hide RunRules, Eligible, OrderOf;
    assert q <= p;
  }

  /** And the guard says nothing exactly when no rule is eligible. */
  lemma NoRuleNoDecision(g: Guard, v: Visit, scope: Text, c: Config, env: Env)
    requires !c.dryRun && forall i :: 0 <= i < |c.rules| ==> c.rules[i].body.Static?
    ensures var order := OrderOf(c.rules, |c.rules|);
      RunRules(g, v, scope, c, env, order, 0).1.None? <==> forall q :: 0 <= q < |order| ==> !Eligible(g, v, c, env, order, q)
  {
    var order := OrderOf(c.rules, |c.rules|);
    var p := FirstEligible(g, v, scope, c, env, order, 0);
    hide RunRules, Eligible, OrderOf;
  }

  // ---------------------------------------------------------------- backoff and cache over time

  /** While the backoff lasts the entry of a blocked scope stays as it is. */
  lemma BlockStays(g: Guard, v: Visit, s: Setup, scope: Text, since: int)
    requires s.config.enabled && scope in g.blocked && g.blocked[scope] == since
    requires 0 < s.config.retryBackoffMs && v.now < since + s.config.retryBackoffMs
    ensures var h := Evaluate(g, v, s.config, s.env, s.leq).0; scope in h.blocked && h.blocked[scope] == since
  {
    EvaluateTables(g, v, s);
    hide Evaluate, ScopeOf, LiveApprovals;
  }

  lemma {:induction false} BlockStaysOverRun(visits: seq<Visit>, i: nat, n: nat, s: Setup)
    requires i < n <= |visits| && s.config.enabled && s.config.retryBackoffMs > 0
    requires Judged(Told(visits, i, s)) && Blocks(Told(visits, i, s).value.decision)
    requires forall j :: i < j < n ==> visits[j].now < visits[i].now + s.config.retryBackoffMs
    ensures var g := After(visits, n, s); ScopeOf(visits[i], s) in g.blocked && g.blocked[ScopeOf(visits[i], s)] == visits[i].now
    decreases n
  {
    if n == i + 1 {
      EvaluateTables(After(visits, i, s), visits[i], s);
      hide Evaluate, ScopeOf, Cleanup;
    } else {
      BlockStaysOverRun(visits, i, n - 1, s);
      BlockStays(After(visits, n - 1, s), visits[n - 1], s, ScopeOf(visits[i], s), visits[i].now);
    }
  }

  /**
   * After a decision blocked a scope, every call of that scope before the backoff is over is
   * blocked by the backoff, and no rule is triggered for it.
   */
  lemma BackoffBlocksWithoutRules(visits: seq<Visit>, i: nat, n: nat, s: Setup)
    requires i < n < |visits| && s.config.enabled && s.config.retryBackoffMs > 0 && ScopeOf(visits[n], s) == ScopeOf(visits[i], s)
    requires Judged(Told(visits, i, s)) && Blocks(Told(visits, i, s).value.decision)
    requires forall j :: i < j <= n ==> visits[j].now < visits[i].now + s.config.retryBackoffMs
    ensures Told(visits, n, s) == Some(Outcome(BLOCK, FromBackoff))
    ensures After(visits, n + 1, s).lastTrigger == After(visits, n, s).lastTrigger
  {
    BlockStaysOverRun(visits, i, n, s);
    hide RunRules, ScopeKey, LiveApprovals, OrderOf;
  }

  /** Call i got a decision that allows it and that is cached. */
  predicate Approves(visits: seq<Visit>, i: nat, s: Setup, scope: Text, a: Approval)
    requires i < |visits|
  {
    && ScopeOf(visits[i], s) == scope && Judged(Told(visits, i, s)) && !Blocks(Told(visits, i, s).value.decision)
    && a == Approval(visits[i].now + s.config.approvalCacheTtlMs, Told(visits, i, s).value.decision.patch)
  }

  /** Every cached approval was given by an earlier call of the scope. */
  lemma {:induction false} ApprovalHasOrigin(visits: seq<Visit>, n: nat, s: Setup, scope: Text) returns (i: nat)
    requires n <= |visits| && scope in After(visits, n, s).cache
    ensures i < n && Approves(visits, i, s, scope, After(visits, n, s).cache[scope])
    decreases n
  {
    if !s.config.enabled {
      DisabledStaysEmpty(visits, n, s);
      assert false;
    }
    EvaluateTables(After(visits, n - 1, s), visits[n - 1], s);
    i := n - 1;
    hide Evaluate, ScopeOf, LiveBlocks;
    if !Judged(Told(visits, n - 1, s)) || ScopeOf(visits[n - 1], s) != scope || Blocks(Told(visits, n - 1, s).value.decision) {
      i := ApprovalHasOrigin(visits, n - 1, s, scope);
    }
  }

  /** A cache hit repeats the patch of an approval of the same scope less than the cache lifetime old. */
  lemma CacheRepeatsRecentApproval(visits: seq<Visit>, n: nat, s: Setup) returns (i: nat)
    requires n < |visits| && Told(visits, n, s).Some? && Told(visits, n, s).value.source == FromCache
    ensures i < n && ScopeOf(visits[i], s) == ScopeOf(visits[n], s)
    ensures Judged(Told(visits, i, s)) && !Blocks(Told(visits, i, s).value.decision)
    ensures Told(visits, n, s).value.decision == Decision(Some(false), Told(visits, i, s).value.decision.patch)
    ensures visits[n].now < visits[i].now + s.config.approvalCacheTtlMs
  {
    var g, v := After(visits, n, s), visits[n];
    if s.config.enabled {
      EvaluateTables(g, v, s);
      i := ApprovalHasOrigin(visits, n, s, ScopeOf(v, s));
      hide RunRules, ScopeKey, LiveBlocks, OrderOf, After;
    }
  }

  // ---------------------------------------------------------------- cooldown in every interleaving

  /** A matching rule reached at some instant, by whichever evaluation. */
  datatype Attempt = Attempt(rule: Rule, at: int)

  /** Checking the cooldown and noting the trigger happen without an interruption. */
  function TryTrigger(last: map<RuleId, int>, a: Attempt): map<RuleId, int> {
    if CanTrigger(last, a.rule, a.at) then last[a.rule.id := a.at] else last
  }

  /** The trigger times after the first n attempts. */
  function Triggers(last: map<RuleId, int>, attempts: seq<Attempt>, n: nat): map<RuleId, int>
    requires n <= |attempts|
  {
    if n == 0 then last else TryTrigger(Triggers(last, attempts, n - 1), attempts[n - 1])
  }

  predicate Fires(last: map<RuleId, int>, attempts: seq<Attempt>, i: nat)
    requires i < |attempts|
  {
    CanTrigger(Triggers(last, attempts, i), attempts[i].rule, attempts[i].at)
  }

  /** The attempts of one evaluation, in order; between two of them other evaluations may make theirs. */
  function AttemptsOf(g: Guard, v: Visit, c: Config, env: Env, order: seq<nat>, k: nat): seq<Attempt>
    requires Indices(order, |c.rules|) && k <= |order|
    decreases |order| - k
  {
    if k == |order| then []
    else
      var rule := c.rules[order[k]];
      if !Considers(rule, v, env) then AttemptsOf(g, v, c, env, order, k + 1)
      else
        var a := Attempt(rule, v.checkedAt(k));
        var stops := CanTrigger(g.lastTrigger, rule, a.at) && EffectOf(rule, v.answers(k), c).Return?;
        [a] + (if stops then [] else AttemptsOf(g.(lastTrigger := TryTrigger(g.lastTrigger, a)), v, c, env, order, k + 1))
  }

  lemma {:induction false} TriggersOfCons(last: map<RuleId, int>, a: Attempt, rest: seq<Attempt>, n: nat)
    requires n <= |rest|
    ensures Triggers(last, [a] + rest, n + 1) == Triggers(TryTrigger(last, a), rest, n)
  {
    if n > 0 {
      TriggersOfCons(last, a, rest, n - 1);
    } else {
      assert Triggers(last, [a] + rest, 0) == last;
    }
  }

  /** An evaluation changes the trigger times by its attempts and in no other way. */
  lemma {:induction false} RunMakesAttempts(g: Guard, v: Visit, scope: Text, c: Config, env: Env, order: seq<nat>, k: nat)
    requires Indices(order, |c.rules|) && k <= |order|
    ensures var attempts := AttemptsOf(g, v, c, env, order, k);
      RunRules(g, v, scope, c, env, order, k).0.lastTrigger == Triggers(g.lastTrigger, attempts, |attempts|)
    decreases |order| - k
  {
    hide Considers, CanTrigger, EffectOf;
    if k < |order| {
      var rule := c.rules[order[k]];
      if !Considers(rule, v, env) {
        RunMakesAttempts(g, v, scope, c, env, order, k + 1);
      } else {
        var a := Attempt(rule, v.checkedAt(k));
        var h := g.(lastTrigger := TryTrigger(g.lastTrigger, a));
        RunMakesAttempts(h, v, scope, c, env, order, k + 1);
        var rest := AttemptsOf(g, v, c, env, order, k)[1..];
        assert AttemptsOf(g, v, c, env, order, k) == [a] + rest;
        TriggersOfCons(g.lastTrigger, a, rest, |rest|);
      }
    }
  }

  /** Once a rule id has fired, the time noted for it is never before that. */
  lemma {:induction false} NotedSince(last: map<RuleId, int>, attempts: seq<Attempt>, i: nat, n: nat)
    requires i < n <= |attempts| && Fires(last, attempts, i)
    requires forall j, k :: 0 <= j <= k < |attempts| ==> attempts[j].at <= attempts[k].at
    ensures attempts[i].rule.id in Triggers(last, attempts, n) && attempts[i].at <= Triggers(last, attempts, n)[attempts[i].rule.id]
    decreases n
  {
    if n > i + 1 {
      NotedSince(last, attempts, i, n - 1);
      hide CanTrigger;
    }
  }

  /**
   * In every interleaving, on a positive clock that does not go back, a rule with a cooldown
   * fires at least that long after every earlier firing of its id.
   */
  lemma CooldownSeparatesTriggers(last: map<RuleId, int>, attempts: seq<Attempt>, i: nat, j: nat)
    requires i < j < |attempts| && attempts[i].rule.id == attempts[j].rule.id
    requires Fires(last, attempts, i) && Fires(last, attempts, j)
    requires attempts[i].at > 0 && forall j, k :: 0 <= j <= k < |attempts| ==> attempts[j].at <= attempts[k].at
    ensures attempts[j].rule.cooldownMs > 0 ==> attempts[j].at - attempts[i].at >= attempts[j].rule.cooldownMs
  {
    NotedSince(last, attempts, i, j);
    hide Triggers;
  }
}
