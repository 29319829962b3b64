/** services/alert-notification/internal/application/rule_engine.go: the engine's own methods. */
module RuleEngine {
  import opened Prelude
  import opened AlertRule
  import GoTime

  /** The rules of one channel, in list order. */
  function Filter(list: seq<Rule>, channel: string): seq<Rule> {
    if list == [] then []
    else (if list[0].channelId == channel then [list[0]] else []) + Filter(list[1..], channel)
  }

  function Lookup(index: map<string, seq<Rule>>, channel: string): seq<Rule> {
    if channel in index then index[channel] else []
  }

  lemma {:induction false} FilterSnoc(list: seq<Rule>, r: Rule, channel: string)
    ensures Filter(list + [r], channel) == Filter(list, channel) + (if r.channelId == channel then [r] else [])
  {
    if list == [] {
      assert [r][1..] == [];
    } else {
      var all, tail := list + [r], if r.channelId == channel then [r] else [];
      var head := if list[0].channelId == channel then [list[0]] else [];
      FilterSnoc(list[1..], r, channel);
      assert all[0] == list[0];
      assert all[1..] == list[1..] + [r];
      assert Filter(all, channel) == head + Filter(all[1..], channel);
      ConcatAssoc(head, Filter(list[1..], channel), tail);
    }
  }

  lemma IndexSnoc(index: map<string, seq<Rule>>, list: seq<Rule>, r: Rule)
    requires forall ch :: Lookup(index, ch) == Filter(list, ch)
    ensures forall ch :: Lookup(index[r.channelId := Lookup(index, r.channelId) + [r]], ch) == Filter(list + [r], ch)
  {
    forall ch ensures Lookup(index[r.channelId := Lookup(index, r.channelId) + [r]], ch) == Filter(list + [r], ch) {
      FilterSnoc(list, r, ch);
    }
  }

  /** Two clock readings: the one the cooldown is checked at and the one that is stored. */
  datatype Tick = Tick(checked: int, stored: int)

  datatype Outcome = Outcome(lastFired: map<string, int>, alerts: seq<AlertEvent>)

  /** What evaluating an event against a list of rules does; `k` counts the cooldown checks so far. */
  function Evaluated(rules: seq<Rule>, evt: TelemetryEvent, last: map<string, int>, ticks: nat -> Tick, k: nat): Outcome
  {
    if rules == [] then Outcome(last, [])
    else if !Fires(rules[0], evt) then Evaluated(rules[1..], evt, last, ticks, k)
    else if Cooling(last, rules[0], ticks(k).checked) then Evaluated(rules[1..], evt, last, ticks, k + 1)
    else
      var rest := Evaluated(rules[1..], evt, last[rules[0].id := ticks(k).stored], ticks, k + 1);
      Outcome(rest.lastFired, [AlertFor(rules[0], evt)] + rest.alerts)
  }

  class Engine {
    var rules: map<string, seq<Rule>>
    var lastFired: map<string, int>
    var attempts: seq<AlertEvent>  // alerts handed to the publisher

    constructor ()
      ensures rules == map[] && lastFired == map[] && attempts == []
    {
      rules, lastFired, attempts := map[], map[], [];
    }

    /** Swaps in the index of a freshly listed set of rules; a listing error leaves everything as it was. */
    method LoadRules(listed: Option<seq<Rule>>) returns (ok: bool)
      modifies this`rules
      ensures ok == listed.Some?
      ensures ok ==> forall ch :: Lookup(rules, ch) == Filter(listed.value, ch)
      ensures !ok ==> rules == old(rules)
    {
      if listed.None? { return false; }
      var list := listed.value;
      var newRules: map<string, seq<Rule>> := map[];
      for i := 0 to |list|
        invariant forall ch :: Lookup(newRules, ch) == Filter(list[..i], ch)
      {
        var r := list[i];
        IndexSnoc(newRules, list[..i], r);
        assert list[..i + 1] == list[..i] + [r];
        newRules := newRules[r.channelId := Lookup(newRules, r.channelId) + [r]];
      }
      assert list[..|list|] == list;
      rules := newRules;
      return true;
    }

    method Snapshot(channel: string) returns (snapshot: seq<Rule>)
      ensures snapshot == Lookup(rules, channel)
    {
      snapshot := if channel in rules then rules[channel] else [];
    }

    /** The locked check-and-set of a rule's last firing. */
    method CheckAndReserve(rule: Rule, tick: Tick) returns (reserved: bool)
      modifies this`lastFired
      ensures reserved == !Cooling(old(lastFired), rule, tick.checked)
      ensures -9_223_372_036 <= rule.cooldownSec <= 9_223_372_036 ==>
        (reserved <==> || rule.id !in old(lastFired)
                       || tick.checked - old(lastFired)[rule.id] >= rule.cooldownSec * GoTime.SECOND)
      ensures lastFired == if reserved then old(lastFired)[rule.id := tick.stored] else old(lastFired)
    {
      if -9_223_372_036 <= rule.cooldownSec <= 9_223_372_036 { CoolingMeans(lastFired, rule, tick.checked); }
      if rule.id in lastFired && GoTime.Sub(tick.checked, lastFired[rule.id]) < Cooldown(rule) { return false; }
      lastFired := lastFired[rule.id := tick.stored];
      return true;
    }

    method Evaluate(evt: TelemetryEvent, ticks: nat -> Tick)
      modifies this`lastFired, this`attempts
      ensures var o := Evaluated(Lookup(rules, evt.channelId), evt, old(lastFired), ticks, 0);
              lastFired == o.lastFired && attempts == old(attempts) + o.alerts
    {
      var snapshot := Snapshot(evt.channelId);
      if |snapshot| == 0 { return; }
      var k := 0;
      ghost var all := Evaluated(snapshot, evt, lastFired, ticks, 0);
      for i := 0 to |snapshot|
        invariant var rest := Evaluated(snapshot[i..], evt, lastFired, ticks, k);
          rest.lastFired == all.lastFired && attempts + rest.alerts == old(attempts) + all.alerts
      {
        var rule := snapshot[i];
        assert snapshot[i..][1..] == snapshot[i + 1..];
        if !rule.enabled { continue; }
        if rule.field !in evt.fields { continue; }
        if !Triggered(rule, evt.fields[rule.field]) { continue; }
        var reserved := CheckAndReserve(rule, ticks(k));
        k := k + 1;
        if !reserved { continue; }
        attempts := attempts + [AlertFor(rule, evt)];
      }
    }
    // The publisher's error is only logged, so an attempt counts whether it succeeds or not.
  }

  /** Evaluating an event against every rule of a flat list, passing over other channels' rules. */
  function Scanned(list: seq<Rule>, evt: TelemetryEvent, last: map<string, int>, ticks: nat -> Tick, k: nat): Outcome {
    if list == [] then Outcome(last, [])
    else if list[0].channelId != evt.channelId || !Fires(list[0], evt) then Scanned(list[1..], evt, last, ticks, k)
    else if Cooling(last, list[0], ticks(k).checked) then Scanned(list[1..], evt, last, ticks, k + 1)
    else
      var rest := Scanned(list[1..], evt, last[list[0].id := ticks(k).stored], ticks, k + 1);
      Outcome(rest.lastFired, [AlertFor(list[0], evt)] + rest.alerts)
  }

  /** The index loses nothing: evaluating a channel's slice reserves and alerts as scanning the whole list does. */
  lemma {:induction false} IndexEvaluatesAsScan(list: seq<Rule>, evt: TelemetryEvent, last: map<string, int>,
                                                ticks: nat -> Tick, k: nat)
    ensures Evaluated(Filter(list, evt.channelId), evt, last, ticks, k) == Scanned(list, evt, last, ticks, k)
    decreases |list|
  {
    if list != [] {
      var r, mine := list[0], Filter(list, evt.channelId);
      if r.channelId != evt.channelId {
        assert mine == Filter(list[1..], evt.channelId);
        IndexEvaluatesAsScan(list[1..], evt, last, ticks, k);
      } else {
        assert mine[0] == r && mine[1..] == Filter(list[1..], evt.channelId);
        if !Fires(r, evt) {
          IndexEvaluatesAsScan(list[1..], evt, last, ticks, k);
        } else if Cooling(last, r, ticks(k).checked) {
          IndexEvaluatesAsScan(list[1..], evt, last, ticks, k + 1);
        } else {
          IndexEvaluatesAsScan(list[1..], evt, last[r.id := ticks(k).stored], ticks, k + 1);
        }
      }
    }
  }
}
