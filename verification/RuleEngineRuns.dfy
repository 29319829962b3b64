/** Many workers evaluating events while rules are reloaded: one action is one critical section or one publish. */
module RuleEngineRuns {
  import opened Prelude
  import opened AlertRule
  import opened RuleEngine

  /** An `Evaluate` call: the snapshot it took after `load` loads, and the rule it is at. */
  datatype Worker =
    | Evaluating(evt: TelemetryEvent, snapshot: seq<Rule>, next: nat, load: nat)
    | Publishing(evt: TelemetryEvent, snapshot: seq<Rule>, next: nat, load: nat)

  datatype Reservation = Reservation(rule: string, at: int, cooldown: int)

  /** `loads`, `log` and `attempts` are histories; the rest is the engine and its callers. */
  datatype State = State(rules: map<string, seq<Rule>>, lastFired: map<string, int>, workers: map<nat, Worker>,
                         clock: int, loads: seq<seq<Rule>>, log: seq<Reservation>, attempts: seq<AlertEvent>)

  datatype Action =
    | Load(list: seq<Rule>, index: map<string, seq<Rule>>)
    | Begin(w: nat, evt: TelemetryEvent)
    | PassOver(w: nat)
    | Check(w: nat, tick: Tick)
    | Publish(w: nat)
    | End(w: nat)

  const INITIAL := State(map[], map[], map[], 0, [], [], [])

  /** The rule list in force after `load` loads. */
  function ListAfter(loads: seq<seq<Rule>>, load: nat): seq<Rule>
    requires load <= |loads|
  {
    if load == 0 then [] else loads[load - 1]
  }

  predicate AtRule(s: State, w: nat) {
    w in s.workers && s.workers[w].next < |s.workers[w].snapshot|
  }

  function RuleAt(s: State, w: nat): Rule
    requires AtRule(s, w)
  {
    s.workers[w].snapshot[s.workers[w].next]
  }

  /** The index a load installs is one that `LoadRules` can have built from the list. */
  ghost predicate Indexes(index: map<string, seq<Rule>>, list: seq<Rule>) {
    forall ch :: Lookup(index, ch) == Filter(list, ch)
  }

  ghost predicate Enabled(s: State, a: Action) {
    match a
    case Load(list, index) => Indexes(index, list)
    case Begin(w, _) => w !in s.workers
    case PassOver(w) => AtRule(s, w) && s.workers[w].Evaluating? && !Fires(RuleAt(s, w), s.workers[w].evt)
    case Check(w, tick) => AtRule(s, w) && s.workers[w].Evaluating? && Fires(RuleAt(s, w), s.workers[w].evt)
                           && s.clock <= tick.checked <= tick.stored
    case Publish(w) => AtRule(s, w) && s.workers[w].Publishing? && Fires(RuleAt(s, w), s.workers[w].evt)
    case End(w) => w in s.workers && !AtRule(s, w)
  }

  function Moved(s: State, w: nat): map<nat, Worker>
    requires AtRule(s, w)
  {
    var k := s.workers[w];
    s.workers[w := Evaluating(k.evt, k.snapshot, k.next + 1, k.load)]
  }

  ghost function Next(s: State, a: Action): State
    requires Enabled(s, a)
  {
    match a
    case Load(list, index) => s.(rules := index, loads := s.loads + [list])
    case Begin(w, evt) => s.(workers := s.workers[w := Evaluating(evt, Lookup(s.rules, evt.channelId), 0, |s.loads|)])
    case PassOver(w) => s.(workers := Moved(s, w))
    case Check(w, tick) =>
      var rule, k := RuleAt(s, w), s.workers[w];
      if Cooling(s.lastFired, rule, tick.checked) then s.(workers := Moved(s, w), clock := tick.checked)
      else s.(workers := s.workers[w := Publishing(k.evt, k.snapshot, k.next, k.load)],
              lastFired := s.lastFired[rule.id := tick.stored], clock := tick.stored,
              log := s.log + [Reservation(rule.id, tick.stored, Cooldown(rule))])
    case Publish(w) =>
      s.(workers := Moved(s, w), attempts := s.attempts + [AlertFor(RuleAt(s, w), s.workers[w].evt)])
    case End(w) => s.(workers := s.workers - {w})
  }

  /** An action that is not enabled when its turn comes does nothing. */
  ghost function Step(s: State, a: Action): State { if Enabled(s, a) then Next(s, a) else s }

  ghost function Run(actions: seq<Action>): State {
    if actions == [] then INITIAL else Step(Run(actions[..|actions| - 1]), actions[|actions| - 1])
  }

  // ---- what every run keeps ----

  ghost predicate Spaced(s: State) {
    && (forall i :: 0 <= i < |s.log| ==> s.log[i].at <= s.clock)
    && (forall i, j :: 0 <= i < j < |s.log| && s.log[i].rule == s.log[j].rule ==>
          s.log[i].at <= s.log[j].at && s.log[j].at - s.log[i].at >= s.log[j].cooldown)
    && (forall i :: 0 <= i < |s.log| ==> s.log[i].rule in s.lastFired && s.log[i].at <= s.lastFired[s.log[i].rule])
    && (forall id :: id in s.lastFired ==> s.lastFired[id] <= s.clock)
  }

  ghost predicate FromOneLoad(s: State) {
    && Indexes(s.rules, ListAfter(s.loads, |s.loads|))
    && forall w :: w in s.workers ==> Consistent(s.loads, s.workers[w])
  }

  predicate Consistent(loads: seq<seq<Rule>>, k: Worker) {
    k.load <= |loads| && k.snapshot == Filter(ListAfter(loads, k.load), k.evt.channelId)
  }

  /** A worker between its reservation and its publish. */
  predicate Holding(s: State, w: nat, id: string) {
    AtRule(s, w) && s.workers[w].Publishing? && RuleAt(s, w).id == id
  }

  function Holders(s: State, id: string): set<nat> {
    set w | w in s.workers && Holding(s, w, id)
  }

  function Reserved(log: seq<Reservation>, id: string): nat {
    if log == [] then 0 else Reserved(log[..|log| - 1], id) + (if log[|log| - 1].rule == id then 1 else 0)
  }

  function Attempted(attempts: seq<AlertEvent>, id: string): nat {
    if attempts == [] then 0
    else Attempted(attempts[..|attempts| - 1], id) + (if attempts[|attempts| - 1].ruleId == id then 1 else 0)
  }

  ghost predicate HoldersFire(s: State) {
    forall w :: w in s.workers && s.workers[w].Publishing? ==> AtRule(s, w) && Fires(RuleAt(s, w), s.workers[w].evt)
  }

  /** A rule's last firing is the time of one of its reservations. */
  ghost predicate Logged(s: State) {
    forall id :: id in s.lastFired ==>
      exists i :: 0 <= i < |s.log| && s.log[i].rule == id && s.log[i].at == s.lastFired[id]
  }

  lemma LoggedStep(s: State, a: Action)
    requires Logged(s) && Enabled(s, a)
    ensures Logged(Next(s, a))
  {
    var t := Next(s, a);
    forall id | id in t.lastFired
      ensures exists i :: 0 <= i < |t.log| && t.log[i].rule == id && t.log[i].at == t.lastFired[id]
    {
      if t.log != s.log && id == RuleAt(s, a.w).id {
        assert t.log[|s.log|].rule == id;
      } else {
        var i :| 0 <= i < |s.log| && s.log[i].rule == id && s.log[i].at == s.lastFired[id];
        assert t.log[i] == s.log[i];
      }
    }
  }

  lemma {:induction false} AlwaysLogged(actions: seq<Action>)
    ensures Logged(Run(actions))
  {
    if actions != [] {
      var s, a := Run(actions[..|actions| - 1]), actions[|actions| - 1];
      AlwaysLogged(actions[..|actions| - 1]);
      if Enabled(s, a) { LoggedStep(s, a); }
    }
  }

  /** Some reservation of the rule lies less than its cooldown before `now`. */
  predicate Recent(log: seq<Reservation>, rule: Rule, now: int) {
    exists i :: 0 <= i < |log| && log[i].rule == rule.id && now - log[i].at < rule.cooldownSec * GoTime.SECOND
  }

  /** In every interleaving a rule that is up for firing is refused exactly when it was reserved less than its cooldown
      before; otherwise it is reserved, at the time that is stored. */
  lemma ReservedUnlessRecent(actions: seq<Action>, w: nat, tick: Tick)
    requires Enabled(Run(actions), Check(w, tick))
    requires -9_223_372_036 <= RuleAt(Run(actions), w).cooldownSec <= 9_223_372_036
    ensures var s, rule := Run(actions), RuleAt(Run(actions), w);
      Next(s, Check(w, tick)).log
      == if Recent(s.log, rule, tick.checked) then s.log
         else s.log + [Reservation(rule.id, tick.stored, rule.cooldownSec * GoTime.SECOND)]
  {
    AlwaysSpaced(actions);
    AlwaysLogged(actions);
    var s, rule := Run(actions), RuleAt(Run(actions), w);
    CooldownExact(rule);
    CoolingMeans(s.lastFired, rule, tick.checked);
    if Cooling(s.lastFired, rule, tick.checked) {
      var i :| 0 <= i < |s.log| && s.log[i].rule == rule.id && s.log[i].at == s.lastFired[rule.id];
    }
  }

  lemma SpacedStep(s: State, a: Action)
    requires Spaced(s) && Enabled(s, a)
    ensures Spaced(Next(s, a))
  {
  }

  lemma {:induction false} AlwaysSpaced(actions: seq<Action>)
    ensures Spaced(Run(actions))
  {
    if actions != [] {
      var s, a := Run(actions[..|actions| - 1]), actions[|actions| - 1];
      AlwaysSpaced(actions[..|actions| - 1]);
      if Enabled(s, a) { SpacedStep(s, a); }
    }
  }

  /** In every interleaving any two reservations of a rule are at least the later one's cooldown apart, in order. */
  lemma CooldownRespected(actions: seq<Action>, i: nat, j: nat)
    requires i < j < |Run(actions).log| && Run(actions).log[i].rule == Run(actions).log[j].rule
    ensures Run(actions).log[j].at - Run(actions).log[i].at >= Run(actions).log[j].cooldown
    ensures Run(actions).log[j].at >= Run(actions).log[i].at
  {
    AlwaysSpaced(actions);
  }

  /** The rule's reservations within an interval. */
  function During(log: seq<Reservation>, id: string, from: int, upto: int): set<nat> {
    set i: nat | i < |log| && log[i].rule == id && from <= log[i].at <= upto
  }

  lemma {:induction false} SpacedSetSize(log: seq<Reservation>, s: set<nat>, from: int, upto: int, c: int)
    requires c > 0 && s != {}
    requires forall i :: i in s ==> i < |log| && from <= log[i].at <= upto
    requires forall i, j :: i in s && j in s && i < j ==> log[j].at - log[i].at >= c
    ensures c * (|s| - 1) <= upto - from
    decreases |s|
  {
    var m := LargestOf(s);
    var rest := s - {m};
    if rest == {} {
      assert s == {m};
    } else {
      SpacedSetSize(log, rest, from, log[m].at - c, c);
      MulNext(c, |rest| - 1);
    }
  }

  lemma MultipleBelow(n: int, l: nat, c: int)
    requires c > 0 && c * n <= l
    ensures n <= l / c
  {
    var q := l / c;
    assert l == c * q + l % c;
    MulNext(c, q);
    if n > q { MulMonotone(c, q + 1, n); }
  }

  /** If every cooldown in force was at least `c`, an interval of length L holds at most L/c + 1 reservations. */
  lemma FiringRate(actions: seq<Action>, id: string, from: int, length: nat, c: int)
    requires c > 0
    requires forall i :: 0 <= i < |Run(actions).log| && Run(actions).log[i].rule == id ==>
      Run(actions).log[i].cooldown >= c
    ensures |During(Run(actions).log, id, from, from + length)| <= length / c + 1
  {
    AlwaysSpaced(actions);
    var log := Run(actions).log;
    var d := During(log, id, from, from + length);
    if d != {} {
      SpacedSetSize(log, d, from, from + length, c);
      MultipleBelow(|d| - 1, length, c);
    }
  }

  lemma FromOneLoadStep(s: State, a: Action)
    requires FromOneLoad(s) && Enabled(s, a)
    ensures FromOneLoad(Next(s, a))
  {
    var t := Next(s, a);
    forall w | w in t.workers ensures Consistent(t.loads, t.workers[w]) {
      if w in s.workers { assert Consistent(s.loads, s.workers[w]); }
    }
  }

  lemma {:induction false} AlwaysFromOneLoad(actions: seq<Action>)
    ensures FromOneLoad(Run(actions))
  {
    if actions != [] {
      var s, a := Run(actions[..|actions| - 1]), actions[|actions| - 1];
      AlwaysFromOneLoad(actions[..|actions| - 1]);
      if Enabled(s, a) { FromOneLoadStep(s, a); }
    }
  }

  /** Whatever is reloaded meanwhile, a worker evaluates one channel's rules of one loaded list, in order. */
  lemma SnapshotOfOneLoad(actions: seq<Action>, w: nat)
    requires w in Run(actions).workers
    ensures var s := Run(actions); var k := s.workers[w];
            k.load <= |s.loads| && k.snapshot == Filter(ListAfter(s.loads, k.load), k.evt.channelId)
  {
    AlwaysFromOneLoad(actions);
  }

  // ---- which alerts go out ----

  /** The rule is enabled and the event has a value of its field that triggers it. */
  predicate Due(rule: Rule, evt: TelemetryEvent) {
    rule.enabled && rule.channelId == evt.channelId
    && rule.field in evt.fields && Triggered(rule, evt.fields[rule.field])
  }

  /** The alert says what the rule and the event say. */
  predicate Reports(e: AlertEvent, rule: Rule, evt: TelemetryEvent) {
    && e.ruleId == rule.id && e.channelId == evt.channelId && e.workspaceId == rule.workspaceId
    && e.field == rule.field && rule.field in evt.fields && e.actual == evt.fields[rule.field]
    && e.threshold == rule.threshold && e.condition == rule.condition && e.severity == rule.severity
    && e.message == rule.message && e.triggeredAt == evt.timestamp && e.webhookSecret == rule.webhookSecret
  }

  /** The `k`-th action publishes an alert for a rule that a worker has reserved. */
  ghost predicate PublishesAt(actions: seq<Action>, k: nat, rule: Rule, evt: TelemetryEvent) {
    && k < |actions| && actions[k].Publish? && Enabled(Run(actions[..k]), actions[k])
    && var s, w := Run(actions[..k]), actions[k].w; RuleAt(s, w) == rule && s.workers[w].evt == evt
  }

  lemma {:induction false} FilteredChannel(list: seq<Rule>, channel: string, i: nat)
    requires i < |Filter(list, channel)|
    ensures Filter(list, channel)[i] in list && Filter(list, channel)[i].channelId == channel
    decreases |list|
  {
    var head := if list[0].channelId == channel then [list[0]] else [];
    if i >= |head| { FilteredChannel(list[1..], channel, i - |head|); }
  }

  /** Every alert handed to the publisher is of a rule that was due for a worker's event, in a list once loaded, and
      says what that rule and event say. */
  lemma {:induction false} AlertsAreDue(actions: seq<Action>, n: nat) returns (k: nat, rule: Rule, evt: TelemetryEvent)
    requires n < |Run(actions).attempts|
    ensures PublishesAt(actions, k, rule, evt) && Due(rule, evt) && Reports(Run(actions).attempts[n], rule, evt)
    ensures exists l :: 0 <= l < |Run(actions).loads| && rule in Run(actions).loads[l]
  {
    var m := |actions| - 1;
    var s, a := Run(actions[..m]), actions[m];
    if n < |s.attempts| {
      k, rule, evt := AlertsAreDue(actions[..m], n);
      assert actions[..m][..k] == actions[..k];
      var l :| 0 <= l < |s.loads| && rule in s.loads[l];
      assert Run(actions).loads[l] == s.loads[l];
    } else {
      k, rule, evt := m, RuleAt(s, a.w), s.workers[a.w].evt;
      var c := s.workers[a.w];
      SnapshotOfOneLoad(actions[..m], a.w);
      FilteredChannel(ListAfter(s.loads, c.load), evt.channelId, c.next);
      assert rule in s.loads[c.load - 1];
    }
  }

  /** The `k`-th action checks the `i`-th rule of a worker that evaluates so. */
  ghost predicate ChecksAt(actions: seq<Action>, k: nat, w: nat, evt: TelemetryEvent, snapshot: seq<Rule>, i: nat) {
    && k < |actions| && actions[k].Check? && actions[k].w == w && Enabled(Run(actions[..k]), actions[k])
    && var c := Run(actions[..k]).workers[w]; c.evt == evt && c.snapshot == snapshot && c.next == i
  }

  /** The worker is beyond the check of its `i`-th rule, which was due. */
  predicate Beyond(c: Worker, i: nat) {
    i < |c.snapshot| && Due(c.snapshot[i], c.evt) && (i < c.next || (i == c.next && c.Publishing?))
  }

  lemma BeyondFrom(s: State, a: Action, w: nat, i: nat)
    requires Enabled(s, a) && w in Next(s, a).workers && Beyond(Next(s, a).workers[w], i)
    ensures w in s.workers
    ensures s.workers[w].evt == Next(s, a).workers[w].evt && s.workers[w].snapshot == Next(s, a).workers[w].snapshot
    ensures Beyond(s.workers[w], i) || (a.Check? && a.w == w && s.workers[w].next == i)
  {
  }

  /** No due rule is passed over: a worker beyond one has checked it. */
  lemma {:induction false} DueRulesAreChecked(actions: seq<Action>, w: nat, i: nat) returns (k: nat)
    requires w in Run(actions).workers && Beyond(Run(actions).workers[w], i)
    ensures var c := Run(actions).workers[w]; ChecksAt(actions, k, w, c.evt, c.snapshot, i)
  {
    var m := |actions| - 1;
    var s, a := Run(actions[..m]), actions[m];
    if Enabled(s, a) { BeyondFrom(s, a, w, i); }
    if Beyond(s.workers[w], i) {
      k := DueRulesAreChecked(actions[..m], w, i);
      assert actions[..m][..k] == actions[..k];
    } else {
      k := m;
    }
  }

  // ---- what a reload can change ----

  function WithoutLoads(actions: seq<Action>): seq<Action> {
    if actions == [] then []
    else
      var a := actions[|actions| - 1];
      WithoutLoads(actions[..|actions| - 1]) + (if a.Load? then [] else [a])
  }

  predicate SameWorker(a: Worker, b: Worker) {
    a.evt == b.evt && a.snapshot == b.snapshot && a.next == b.next && a.Evaluating? == b.Evaluating?
  }

  /** The two states differ at most in the rules in force and in which load a snapshot is from. */
  ghost predicate SameFirings(s: State, t: State) {
    && s.lastFired == t.lastFired && s.clock == t.clock && s.log == t.log && s.attempts == t.attempts
    && s.workers.Keys == t.workers.Keys
    && forall w :: w in s.workers ==> SameWorker(s.workers[w], t.workers[w])
  }

  /** Every evaluation begun in `more` finds the rules for its channel that were in force before. */
  ghost predicate SeesRulesOf(actions: seq<Action>, more: seq<Action>) {
    more == []
    || var front, a := more[..|more| - 1], more[|more| - 1];
       && SeesRulesOf(actions, front)
       && (a.Begin? ==>
             Lookup(Run(actions + front).rules, a.evt.channelId) == Lookup(Run(actions).rules, a.evt.channelId))
  }

  lemma SameEnabled(s: State, t: State, a: Action)
    requires SameFirings(s, t) && !a.Load?
    ensures Enabled(s, a) <==> Enabled(t, a)
  {
  }

  lemma SameFiringsStep(s: State, t: State, a: Action)
    requires SameFirings(s, t)
    requires a.Begin? ==> Lookup(s.rules, a.evt.channelId) == Lookup(t.rules, a.evt.channelId)
    ensures SameFirings(Step(s, a), if a.Load? then t else Step(t, a))
    ensures !a.Load? ==> Step(t, a).rules == t.rules
  {
    if !a.Load? { SameEnabled(s, t, a); }
  }

  lemma RunSnoc(actions: seq<Action>, more: seq<Action>, a: Action)
    ensures Run(actions + (more + [a])) == Step(Run(actions + more), a)
  {
    assert (actions + (more + [a]))[..|actions| + |more|] == actions + more;
  }

  lemma WithoutLoadsSnoc(more: seq<Action>, a: Action)
    ensures WithoutLoads(more + [a]) == WithoutLoads(more) + (if a.Load? then [] else [a])
  {
    assert (more + [a])[..|more|] == more;
  }

  /** Reloads change neither a firing time, a reservation nor an alert, and no evaluation under way: leaving them out of
      a run gives the same, as long as no evaluation begins on a channel whose rules they have changed. */
  lemma {:induction false} ReloadsInvisible(actions: seq<Action>, more: seq<Action>)
    requires SeesRulesOf(actions, more)
    ensures SameFirings(Run(actions + more), Run(actions + WithoutLoads(more)))
    ensures Run(actions + WithoutLoads(more)).rules == Run(actions).rules
    decreases |more|
  {
    if more == [] {
      assert actions + more == actions;
    } else {
      var front, a := more[..|more| - 1], more[|more| - 1];
      assert more == front + [a];
      ReloadsInvisible(actions, front);
      SameFiringsStep(Run(actions + front), Run(actions + WithoutLoads(front)), a);
      RunSnoc(actions, front, a);
      WithoutLoadsSnoc(front, a);
      if a.Load? {
        assert WithoutLoads(more) == WithoutLoads(front);
      } else {
        RunSnoc(actions, WithoutLoads(front), a);
      }
    }
  }

  lemma {:induction false} AlwaysHoldersFire(actions: seq<Action>)
    ensures HoldersFire(Run(actions))
  {
    if actions != [] {
      var s, a := Run(actions[..|actions| - 1]), actions[|actions| - 1];
      AlwaysHoldersFire(actions[..|actions| - 1]);
    }
  }

  /** An action changes the holders by its own worker alone. */
  lemma HoldersChange(s: State, a: Action, id: string)
    requires Enabled(s, a) && !a.Load? && HoldersFire(s)
    ensures var t, w := Next(s, a), a.w;
      Holders(t, id) - {w} == Holders(s, id) - {w}
      && (w in Holders(t, id) <==> t.log != s.log && RuleAt(s, w).id == id)
      && (w in Holders(s, id) <==> a.Publish? && RuleAt(s, w).id == id)
  {
  }

  lemma CountsStep(s: State, a: Action, id: string)
    requires Enabled(s, a)
    ensures var t := Next(s, a);
      && Attempted(t.attempts, id)
         == Attempted(s.attempts, id) + (if a.Publish? && RuleAt(s, a.w).id == id then 1 else 0)
      && Reserved(t.log, id)
         == Reserved(s.log, id) + (if t.log != s.log && RuleAt(s, a.w).id == id then 1 else 0)
  {
  }

  lemma HoldersStep(s: State, a: Action, id: string)
    requires Enabled(s, a) && HoldersFire(s)
    ensures var t := Next(s, a);
      |Holders(t, id)| + Attempted(t.attempts, id) - Reserved(t.log, id)
      == |Holders(s, id)| + Attempted(s.attempts, id) - Reserved(s.log, id)
  {
    var t := Next(s, a);
    CountsStep(s, a, id);
    if a.Load? {
      assert Holders(t, id) == Holders(s, id);
    } else {
      HoldersChange(s, a, id);
      SizeWithout(Holders(s, id), a.w);
      SizeWithout(Holders(t, id), a.w);
    }
  }

  lemma SizeWithout(s: set<nat>, w: nat)
    ensures |s - {w}| == |s| - (if w in s then 1 else 0)
  {
  }

  /** Every reservation is published once or is held by exactly one worker about to publish it. */
  lemma {:induction false} ReservationsAccounted(actions: seq<Action>, id: string)
    ensures var s := Run(actions); Attempted(s.attempts, id) + |Holders(s, id)| == Reserved(s.log, id)
  {
    if actions == [] {
      assert Holders(INITIAL, id) == {};
    } else {
      var s, a := Run(actions[..|actions| - 1]), actions[|actions| - 1];
      ReservationsAccounted(actions[..|actions| - 1], id);
      AlwaysHoldersFire(actions[..|actions| - 1]);
      if Enabled(s, a) { HoldersStep(s, a, id); }
    }
  }

  // ---- the sequential method as one run ----

  ghost predicate CanRun(s: State, actions: seq<Action>)
    decreases |actions|
  {
    actions == [] || (Enabled(s, actions[0]) && CanRun(Next(s, actions[0]), actions[1..]))
  }

  ghost function RunOn(s: State, actions: seq<Action>): State
    requires CanRun(s, actions)
    decreases |actions|
  {
    if actions == [] then s else RunOn(Next(s, actions[0]), actions[1..])
  }

  ghost predicate Increasing(ticks: nat -> Tick) {
    forall i: nat :: ticks(i).checked <= ticks(i).stored <= ticks(i + 1).checked
  }

  lemma Prepend(s: State, a: Action, rest: seq<Action>)
    requires Enabled(s, a) && CanRun(Next(s, a), rest)
    ensures CanRun(s, [a] + rest) && RunOn(s, [a] + rest) == RunOn(Next(s, a), rest)
  {
  }

  ghost predicate Finishes(s: State, t: State, w: nat, o: Outcome) {
    && t.lastFired == o.lastFired && t.attempts == s.attempts + o.alerts
    && t.workers == s.workers - {w} && t.rules == s.rules && t.loads == s.loads
  }

  /** A worker left to itself does to the firing times and the publisher what `Evaluated` says. */
  lemma {:induction false} WorkerAlone(s: State, w: nat, ticks: nat -> Tick, k: nat) returns (actions: seq<Action>)
    requires w in s.workers && s.workers[w].Evaluating? && s.workers[w].next <= |s.workers[w].snapshot|
    requires Increasing(ticks) && s.clock <= ticks(k).checked
    ensures CanRun(s, actions)
    ensures var c := s.workers[w];
      Finishes(s, RunOn(s, actions), w, Evaluated(c.snapshot[c.next..], c.evt, s.lastFired, ticks, k))
    decreases |s.workers[w].snapshot| - s.workers[w].next, 1
  {
    var c := s.workers[w];
    if c.next == |c.snapshot| {
      actions := [End(w)];
      Prepend(s, End(w), []);
    } else {
      var rule := c.snapshot[c.next];
      assert c.snapshot[c.next..][0] == rule && c.snapshot[c.next..][1..] == c.snapshot[c.next + 1..];
      if !Fires(rule, c.evt) {
        var rest := WorkerAlone(Next(s, PassOver(w)), w, ticks, k);
        actions := [PassOver(w)] + rest;
        Prepend(s, PassOver(w), rest);
      } else {
        var a := Check(w, ticks(k));
        var t := Next(s, a);
        assert t.clock <= ticks(k).stored <= ticks(k + 1).checked;
        if Cooling(s.lastFired, rule, ticks(k).checked) {
          var rest := WorkerAlone(t, w, ticks, k + 1);
          actions := [a] + rest;
          Prepend(s, a, rest);
        } else {
          actions := ReserveThenPublish(s, w, ticks, k);
        }
      }
    }
  }

  lemma FinishesAfterAlert(s: State, u: State, end: State, w: nat, o: Outcome, alert: AlertEvent)
    requires Finishes(u, end, w, o) && u.attempts == s.attempts + [alert]
    requires u.workers - {w} == s.workers - {w} && u.rules == s.rules && u.loads == s.loads
    ensures Finishes(s, end, w, Outcome(o.lastFired, [alert] + o.alerts))
  {
    ConcatAssoc(s.attempts, [alert], o.alerts);
  }

  lemma {:induction false} ReserveThenPublish(s: State, w: nat, ticks: nat -> Tick, k: nat)
    returns (actions: seq<Action>)
    requires AtRule(s, w) && s.workers[w].Evaluating? && Fires(RuleAt(s, w), s.workers[w].evt)
    requires Increasing(ticks) && s.clock <= ticks(k).checked && !Cooling(s.lastFired, RuleAt(s, w), ticks(k).checked)
    ensures CanRun(s, actions)
    ensures var c := s.workers[w];
      Finishes(s, RunOn(s, actions), w, Evaluated(c.snapshot[c.next..], c.evt, s.lastFired, ticks, k))
    decreases |s.workers[w].snapshot| - s.workers[w].next, 0
  {
    var c, rule := s.workers[w], RuleAt(s, w);
    assert c.snapshot[c.next..][0] == rule && c.snapshot[c.next..][1..] == c.snapshot[c.next + 1..];
    var t := Next(s, Check(w, ticks(k)));
    var u := Next(t, Publish(w));
    assert t.clock <= ticks(k + 1).checked;
    assert u.attempts == s.attempts + [AlertFor(rule, c.evt)] && u.lastFired == s.lastFired[rule.id := ticks(k).stored];
    assert u.workers - {w} == s.workers - {w};
    var rest := WorkerAlone(u, w, ticks, k + 1);
    Prepend(t, Publish(w), rest);
    Prepend(s, Check(w, ticks(k)), [Publish(w)] + rest);
    actions := [Check(w, ticks(k))] + ([Publish(w)] + rest);
    var o := Evaluated(c.snapshot[c.next + 1..], c.evt, u.lastFired, ticks, k + 1);
    FinishesAfterAlert(s, u, RunOn(s, actions), w, o, AlertFor(rule, c.evt));
  }

  /** `Engine.Evaluate` is one run of the protocol: an undisturbed call ends with its firing times and alerts. */
  lemma EvaluateIsARun(s: State, w: nat, evt: TelemetryEvent, ticks: nat -> Tick) returns (actions: seq<Action>)
    requires w !in s.workers && Increasing(ticks) && s.clock <= ticks(0).checked
    ensures CanRun(s, actions)
    ensures Finishes(s, RunOn(s, actions), w, Evaluated(Lookup(s.rules, evt.channelId), evt, s.lastFired, ticks, 0))
  {
    var a := Begin(w, evt);
    var t := Next(s, a);
    var rest := WorkerAlone(t, w, ticks, 0);
    actions := [a] + rest;
    Prepend(s, a, rest);
    assert t.workers[w].snapshot[0..] == Lookup(s.rules, evt.channelId);
    assert t.workers - {w} == s.workers - {w};
  }
}
