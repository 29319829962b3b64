/** `Client.Send` as one undisturbed run of the protocol of many callers. */
module SdkClientRuns {
  import opened Prelude
  import opened BatchSpec
  import opened SdkClient

  predicate CanRun(s: State, actions: seq<Action>)
    decreases |actions|
  {
    actions == [] || (Enabled(s, actions[0]) && CanRun(Next(s, actions[0]), actions[1..]))
  }

  function RunOn(s: State, actions: seq<Action>): State
    requires CanRun(s, actions)
    decreases |actions|
  {
    if actions == [] then s else RunOn(Next(s, actions[0]), actions[1..])
  }

  lemma Prepend(s: State, a: Action, rest: seq<Action>)
    requires Enabled(s, a) && CanRun(Next(s, a), rest)
    ensures CanRun(s, [a] + rest) && RunOn(s, [a] + rest) == RunOn(Next(s, a), rest)
  {
  }

  lemma {:induction false} RunOnAppend(s: State, a: seq<Action>, b: seq<Action>)
    requires CanRun(s, a) && CanRun(RunOn(s, a), b)
    ensures CanRun(s, a + b) && RunOn(s, a + b) == RunOn(RunOn(s, a), b)
    decreases |a|
  {
    if a == [] {
      assert a + b == b;
    } else {
      RunOnAppend(Next(s, a[0]), a[1..], b);
      Prepend(s, a[0], a[1..] + b);
      assert [a[0]] + (a[1..] + b) == a + b;
    }
  }

  /** The payloads the server has taken, in order. */
  function PayloadsIn(log: seq<Accepted>): (ps: seq<Payload>)
    ensures |ps| == |log| && forall i :: 0 <= i < |ps| ==> ps[i] == log[i].payload
  {
    seq(|log|, i requires 0 <= i < |log| => log[i].payload)
  }

  /** The log has grown by those payloads, and the client is otherwise as it was. */
  predicate Took(s: State, t: State, taken: seq<Payload>) {
    && PayloadsIn(t.log) == PayloadsIn(s.log) + taken
    && t.schema == s.schema && t.version == s.version && t.pending == s.pending && t.recorded == s.recorded
  }

  predicate ReturnedSo(t: State, c: nat, ok: bool) {
    c in t.calls && t.calls[c].Returned? && t.calls[c].ok == ok
  }

  /** Where a pass leaves its call. */
  predicate PassLeft(t: State, c: nat, batch: seq<Reading>, pass: nat, err: Option<SendError>) {
    if err == Some(SchemaMismatch) && pass == 1 then c in t.calls && t.calls[c] == Fetching(batch)
    else ReturnedSo(t, c, err == None)
  }

  /** The part of a pass still to come when `k.sent` payloads have been accepted. */
  function Rest(k: Call, net: nat -> Answer, from: nat): (seq<Payload>, Option<SendError>)
    requires k.Posting? && k.sent <= |k.payloads|
  {
    var ps := k.payloads;
    var n := Through(|ps|, net, from, k.sent);
    if n == |ps| then (ps[k.sent..], None)
    else
      match net(from + n)
      case Conflict => (ps[k.sent..n], Some(SchemaMismatch))
      case Lost => (ps[k.sent..n + 1], Some(PostFailed))
      case _ => (ps[k.sent..n], Some(PostFailed))
  }

  lemma RestAfterAccept(k: Call, net: nat -> Answer, from: nat)
    requires k.Posting? && k.sent < |k.payloads| && net(from + k.sent) == Accept
    ensures var rest := Rest(k.(sent := k.sent + 1), net, from);
      Rest(k, net, from) == ([k.payloads[k.sent]] + rest.0, rest.1)
  {
    assert Taken(net, from, k.sent);
    var ps, i := k.payloads, k.sent;
    forall n | i < n <= |ps| ensures ps[i..n] == [ps[i]] + ps[i + 1..n] {
    }
    assert ps[i..] == [ps[i]] + ps[i + 1..];
  }

  lemma RestAfterFailure(k: Call, net: nat -> Answer, from: nat)
    requires k.Posting? && k.sent < |k.payloads| && net(from + k.sent) != Accept
    ensures var answer := net(from + k.sent);
      Rest(k, net, from) == (if answer == Lost then [k.payloads[k.sent]] else [],
                             Some(if answer == Conflict then SchemaMismatch else PostFailed))
  {
    assert !Taken(net, from, k.sent);
    var ps, i := k.payloads, k.sent;
    assert ps[i..i] == [] && ps[i..i + 1] == [ps[i]];
  }

  lemma TookMore(s: State, u: State, t: State, first: seq<Payload>, more: seq<Payload>)
    requires Took(s, u, first) && Took(u, t, more)
    ensures Took(s, t, first + more)
  {
    ConcatAssoc(PayloadsIn(s.log), first, more);
  }

  /** Posting in order does to the server and the call what is left of the pass. */
  lemma {:induction false} PostsRun(s: State, c: nat, net: nat -> Answer, from: nat) returns (actions: seq<Action>)
    requires c in s.calls && s.calls[c].Posting? && s.calls[c].sent <= |s.calls[c].payloads|
    ensures CanRun(s, actions)
    ensures var k := s.calls[c]; var rest := Rest(k, net, from); var t := RunOn(s, actions);
      Took(s, t, rest.0) && PassLeft(t, c, k.batch, k.pass, rest.1)
    decreases |s.calls[c].payloads| - s.calls[c].sent
  {
    var k := s.calls[c];
    if k.sent == |k.payloads| {
      actions := [Finish(c)];
      Prepend(s, Finish(c), []);
    } else {
      var a := Post(c, net(from + k.sent));
      var u := Next(s, a);
      if a.answer == Accept {
        RestAfterAccept(k, net, from);
        assert Took(s, u, [k.payloads[k.sent]]);
        var rest := PostsRun(u, c, net, from);
        TookMore(s, u, RunOn(u, rest), [k.payloads[k.sent]], Rest(k.(sent := k.sent + 1), net, from).0);
        actions := [a] + rest;
        Prepend(s, a, rest);
      } else {
        RestAfterFailure(k, net, from);
        actions := [a];
        Prepend(s, a, []);
      }
    }
  }

  /** One pass. */
  lemma PassRun(s: State, c: nat, net: nat -> Answer, from: nat) returns (actions: seq<Action>)
    requires c in s.calls && s.calls[c].Ready? && s.version == s.schema.version
    ensures CanRun(s, actions)
    ensures var k, t := s.calls[c], RunOn(s, actions); var p := Pass(k.batch, s.schema, s.version, net, from);
      Took(s, t, p.0) && PassLeft(t, c, k.batch, k.pass, p.1)
  {
    var u := Next(s, Build(c));
    assert Took(s, u, []);
    if u.calls[c].Posting? {
      var rest := PostsRun(u, c, net, from);
      TookMore(s, u, RunOn(u, rest), [], Rest(u.calls[c], net, from).0);
      actions := [Build(c)] + rest;
      Prepend(s, Build(c), rest);
      assert Rest(u.calls[c], net, from) == Pass(s.calls[c].batch, s.schema, s.version, net, from);
    } else {
      actions := [Build(c)];
      Prepend(s, Build(c), []);
    }
  }

  /** The call has returned as that outcome says, and the client and the server are left so. */
  predicate EndsAs(s: State, t: State, c: nat, o: Outcome) {
    && ReturnedSo(t, c, o.err == None)
    && PayloadsIn(t.log) == PayloadsIn(s.log) + o.taken
    && t.schema == o.schema && t.version == o.schema.version && t.pending == s.pending && t.recorded == s.recorded
  }

  /** What is left of a call after a 409 of its first pass. */
  function SecondOutcome(readings: seq<Reading>, schema: Schema, net: nat -> Answer, from: nat, fetched: Option<Schema>)
    : Outcome
  {
    if fetched.None? then Outcome([], Some(FetchFailed), schema)
    else
      var p := Pass(readings, fetched.value, fetched.value.version, net, from);
      Outcome(p.0, p.1, fetched.value)
  }

  lemma EndsAfter(s: State, u: State, t: State, c: nat, first: seq<Payload>, o: Outcome)
    requires Took(s, u, first) && EndsAs(u, t, c, o)
    ensures EndsAs(s, t, c, o.(taken := first + o.taken))
  {
    ConcatAssoc(PayloadsIn(s.log), first, o.taken);
  }

  /** After a 409 of the first pass: the schema, if one can be fetched, is installed and a second pass made. */
  lemma SecondPassRun(s: State, c: nat, net: nat -> Answer, from: nat, fetched: Option<Schema>)
    returns (actions: seq<Action>)
    requires c in s.calls && s.calls[c].Fetching? && s.version == s.schema.version
    ensures CanRun(s, actions)
    ensures EndsAs(s, RunOn(s, actions), c, SecondOutcome(s.calls[c].batch, s.schema, net, from, fetched))
  {
    var u := Next(s, Fetch(c, fetched));
    if fetched.None? {
      actions := [Fetch(c, fetched)];
      Prepend(s, Fetch(c, fetched), []);
    } else {
      var v := Next(u, Install(c));
      var rest := PassRun(v, c, net, from);
      Prepend(u, Install(c), rest);
      Prepend(s, Fetch(c, fetched), [Install(c)] + rest);
      actions := [Fetch(c, fetched)] + ([Install(c)] + rest);
    }
  }

  /** A call that has taken readings from the buffer. */
  lemma TakenRun(s: State, c: nat, net: nat -> Answer, from: nat, fetched: Option<Schema>)
    returns (actions: seq<Action>)
    requires c in s.calls && s.calls[c].Ready? && s.calls[c].pass == 1 && s.version == s.schema.version
    ensures CanRun(s, actions)
    ensures EndsAs(s, RunOn(s, actions), c, Sent(s.calls[c].batch, s.schema, net, from, fetched))
  {
    var batch := s.calls[c].batch;
    var p := Pass(batch, s.schema, s.version, net, from);
    var first := PassRun(s, c, net, from);
    if p.1 != Some(SchemaMismatch) {
      actions := first;
    } else {
      var second := ConflictRun(s, RunOn(s, first), c, p.0, net, from + |p.0| + 1, fetched);
      RunOnAppend(s, first, second);
      actions := first + second;
    }
  }

  /** The rest of a call after a first pass that has taken some payloads before a 409. */
  lemma ConflictRun(s: State, u: State, c: nat, first: seq<Payload>, net: nat -> Answer, from: nat,
                    fetched: Option<Schema>)
    returns (actions: seq<Action>)
    requires Took(s, u, first) && c in u.calls && u.calls[c].Fetching? && s.version == s.schema.version
    ensures CanRun(u, actions)
    ensures var o := SecondOutcome(u.calls[c].batch, s.schema, net, from, fetched);
      EndsAs(s, RunOn(u, actions), c, o.(taken := first + o.taken))
  {
    actions := SecondPassRun(u, c, net, from, fetched);
    EndsAfter(s, u, RunOn(u, actions), c, first, SecondOutcome(u.calls[c].batch, s.schema, net, from, fetched));
  }

  /** Left to itself a call with readings ends as `Client.Send` does: with its error or none, its payloads taken, and
      its schema held. */
  lemma SendIsARun(s: State, c: nat, net: nat -> Answer, from: nat, fetched: Option<Schema>)
    returns (actions: seq<Action>)
    requires c !in s.calls && s.version == s.schema.version && s.pending != []
    ensures CanRun(s, actions)
    ensures EndsAs(s.(pending := []), RunOn(s, actions), c, Sent(s.pending, s.schema, net, from, fetched))
  {
    var rest := TakenRun(Next(s, Take(c)), c, net, from, fetched);
    actions := [Take(c)] + rest;
    Prepend(s, Take(c), rest);
  }
}
