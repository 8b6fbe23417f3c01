/**
 * The guard as a class: cooldown times, blocked scopes and cached approvals in maps that the
 * evaluation loop updates in place.
 */
module ToolGuard {
  import opened Options
  import opened JsonText
  import opened StableJson
  import opened ScopeKeys
  import opened GuardRules
  import opened GuardSteps

  class HookBridgeGuard {
    const config: Config
    const env: Env
    const leq: KeyOrder
    var lastTriggerByRule: map<RuleId, int>
    var blockedRetryStateByScope: map<Text, int>
    var approvalCacheByScope: map<Text, Approval>

    ghost function View(): Guard
      reads this
    {
      Guard(lastTriggerByRule, blockedRetryStateByScope, approvalCacheByScope)
    }

    constructor (config: Config, env: Env, leq: KeyOrder)
      ensures View() == EMPTY && this.config == config
    {
      this.config, this.env, this.leq := config, env, leq;
      lastTriggerByRule, blockedRetryStateByScope, approvalCacheByScope := map[], map[], map[];
    }

    method CleanupToolGuardState(now: int)
      modifies this`blockedRetryStateByScope, this`approvalCacheByScope
      ensures View() == Cleanup(old(View()), now, config.retryBackoffMs)
    {
      var rest := approvalCacheByScope.Keys;
      while rest != {}
        invariant rest <= old(approvalCacheByScope).Keys && unchanged(`blockedRetryStateByScope)
        invariant approvalCacheByScope == map k | k in old(approvalCacheByScope)
          && (k in rest || old(approvalCacheByScope)[k].expiresAt > now) :: old(approvalCacheByScope)[k]
        decreases rest
      {
        var k :| k in rest;
        if approvalCacheByScope[k].expiresAt <= now {
          approvalCacheByScope := approvalCacheByScope - {k};
        }
        rest := rest - {k};
      }
      if config.retryBackoffMs <= 0 {
        blockedRetryStateByScope := map[];
        return;
      }
      rest := blockedRetryStateByScope.Keys;
      while rest != {}
        invariant rest <= old(blockedRetryStateByScope).Keys
        invariant approvalCacheByScope == LiveApprovals(old(approvalCacheByScope), now)
        invariant blockedRetryStateByScope == map k | k in old(blockedRetryStateByScope)
          && (k in rest || now - old(blockedRetryStateByScope)[k] < config.retryBackoffMs) :: old(blockedRetryStateByScope)[k]
        decreases rest
      {
        var k :| k in rest;
        if now - blockedRetryStateByScope[k] >= config.retryBackoffMs {
          blockedRetryStateByScope := blockedRetryStateByScope - {k};
        }
        rest := rest - {k};
      }
    }

    method RecordToolGuardDecision(scope: Text, decision: Decision, now: int)
      modifies this`blockedRetryStateByScope, this`approvalCacheByScope
      ensures View() == Record(old(View()), scope, decision, config, now)
    {
      if Blocks(decision) {
        blockedRetryStateByScope := blockedRetryStateByScope[scope := now];
        return;
      }
      if config.approvalCacheTtlMs <= 0 {
        return;
      }
      approvalCacheByScope := approvalCacheByScope[scope := Approval(now + config.approvalCacheTtlMs, decision.patch)];
    }

    method EvaluateBeforeToolCall(v: Visit) returns (outcome: Option<Outcome>)
      modifies this`lastTriggerByRule, this`blockedRetryStateByScope, this`approvalCacheByScope
      ensures (View(), outcome) == Evaluate(old(View()), v, config, env, leq)
    {
      hide ScopeKey, OrderOf, MatchesRule, CanTrigger, EffectOf, Record;
      if !config.enabled {
        return None;
      }
      var scope := ScopeKey(v.call.toolName, v.call.params, config.mode, leq);
      CleanupToolGuardState(v.now);
      if scope in blockedRetryStateByScope && config.retryBackoffMs > 0
         && v.now - blockedRetryStateByScope[scope] < config.retryBackoffMs {
        return Some(Outcome(BLOCK, FromBackoff));
      }
      if scope in approvalCacheByScope && approvalCacheByScope[scope].expiresAt > v.now {
        return Some(Outcome(Decision(Some(false), approvalCacheByScope[scope].patch), FromCache));
      }
      outcome := EvaluateRules(v, scope, OrderOf(config.rules, |config.rules|));
    }

    /** The loop over the rules in evaluation order. */
    method EvaluateRules(v: Visit, scope: Text, order: seq<nat>) returns (outcome: Option<Outcome>)
      requires Indices(order, |config.rules|)
      modifies this`lastTriggerByRule, this`blockedRetryStateByScope, this`approvalCacheByScope
      ensures (View(), outcome) == RunRules(old(View()), v, scope, config, env, order, 0)
    {
      hide MatchesRule, CanTrigger, EffectOf, Record;
      for k := 0 to |order|
        invariant RunRules(View(), v, scope, config, env, order, k) == RunRules(old(View()), v, scope, config, env, order, 0)
      {
        var rule := config.rules[order[k]];
        if !Considers(rule, v, env) || !CanTrigger(lastTriggerByRule, rule, v.checkedAt(k)) {
          continue;
        }
        lastTriggerByRule := lastTriggerByRule[rule.id := v.checkedAt(k)];
        match EffectOf(rule, v.answers(k), config)
        case Skip =>
        case Return(decided, record) =>
          if record {
            RecordToolGuardDecision(scope, decided.decision, v.now);
          }
          return Some(decided);
      }
      outcome := None;
    }
  }
}
