/** services/alert-notification/internal/domain/alert/rule.go: rules and the alerts they raise. */
module AlertRule {
  import GoTime

  datatype Rule = Rule(id: string, channelId: string, workspaceId: string, field: string, condition: string,
                       threshold: real, severity: string, message: string, enabled: bool, cooldownSec: int,
                       webhookSecret: string)

  datatype TelemetryEvent = TelemetryEvent(channelId: string, fields: map<string, real>, timestamp: int)

  datatype AlertEvent = AlertEvent(ruleId: string, channelId: string, workspaceId: string, field: string, actual: real,
                                   threshold: real, condition: string, severity: string, message: string,
                                   triggeredAt: int, webhookSecret: string)

  predicate Triggered(rule: Rule, value: real) {
    if rule.condition == "gt" then value > rule.threshold
    else if rule.condition == "gte" then value >= rule.threshold
    else if rule.condition == "lt" then value < rule.threshold
    else if rule.condition == "lte" then value <= rule.threshold
    else if rule.condition == "eq" then value == rule.threshold
    else if rule.condition == "neq" then value != rule.threshold
    else false
  }

  /** A higher value keeps an upper-bound rule triggered and a lower one a lower-bound rule, equality decides at the
      threshold, each condition has its complement, and an unknown condition never triggers. At most one value equals
      the threshold, and of above, below and equal exactly one holds: no other operators meet these laws. */
  lemma ConditionLaws(r: Rule, v: real, w: real)
    requires v <= w
    ensures r.condition in {"gt", "gte"} && Triggered(r, v) ==> Triggered(r, w)
    ensures r.condition in {"lt", "lte"} && Triggered(r, w) ==> Triggered(r, v)
    ensures Triggered(r, r.threshold) <==> r.condition in {"gte", "lte", "eq"}
    ensures Triggered(r.(condition := "gt"), v) <==> !Triggered(r.(condition := "lte"), v)
    ensures Triggered(r.(condition := "lt"), v) <==> !Triggered(r.(condition := "gte"), v)
    ensures Triggered(r.(condition := "eq"), v) <==> !Triggered(r.(condition := "neq"), v)
    ensures Triggered(r.(condition := "gte"), v)
       <==> Triggered(r.(condition := "gt"), v) || Triggered(r.(condition := "eq"), v)
    ensures r.condition == "eq" && Triggered(r, v) && Triggered(r, w) ==> v == w
    ensures Triggered(r.(condition := "eq"), v)
       <==> !Triggered(r.(condition := "gt"), v) && !Triggered(r.(condition := "lt"), v)
    ensures r.condition !in {"gt", "gte", "lt", "lte", "eq", "neq"} ==> !Triggered(r, v)
  {
  }

  /** The rule is up for firing on this event, but for its cooldown. */
  predicate Fires(rule: Rule, evt: TelemetryEvent) {
    rule.enabled && rule.field in evt.fields && Triggered(rule, evt.fields[rule.field])
  }

  function AlertFor(rule: Rule, evt: TelemetryEvent): AlertEvent
    requires rule.field in evt.fields
  {
    AlertEvent(rule.id, rule.channelId, rule.workspaceId, rule.field, evt.fields[rule.field], rule.threshold,
               rule.condition, rule.severity, rule.message, evt.timestamp, rule.webhookSecret)
  }

  /** `time.Duration(rule.CooldownSec)*time.Second`, an int64 product. */
  function Cooldown(rule: Rule): int { GoTime.Wrap64(rule.cooldownSec * GoTime.SECOND) }

  /** The product is the plain one exactly for cooldowns below 292 years. */
  lemma CooldownExact(rule: Rule)
    ensures Cooldown(rule) == rule.cooldownSec * 1_000_000_000
       <==> -9_223_372_036 <= rule.cooldownSec <= 9_223_372_036
  {
  }

  /** The rule fired less than its cooldown before `now`. */
  predicate Cooling(lastFired: map<string, int>, rule: Rule, now: int) {
    rule.id in lastFired && GoTime.Sub(now, lastFired[rule.id]) < Cooldown(rule)
  }

  /** Neither the product nor the difference of the times, which may saturate, spoils the comparison. */
  lemma CoolingMeans(lastFired: map<string, int>, rule: Rule, now: int)
    requires -9_223_372_036 <= rule.cooldownSec <= 9_223_372_036
    ensures Cooling(lastFired, rule, now)
       <==> rule.id in lastFired && now - lastFired[rule.id] < rule.cooldownSec * 1_000_000_000
  {
    CooldownExact(rule);
  }
}
