/** sdk/go/client.go: the pending buffer, sending with one schema retry, and many callers at once. */
module SdkClient {
  import opened Prelude
  import opened BatchSpec
  import BatchGo
  import BatchTheorems

  /** The cached schema: field names in index order, and the server's version of it. */
  datatype Schema = Schema(names: seq<string>, version: nat)

  /** How one post ends: taken and answered so, taken but the answer lost or an error after all, refused as of another
      schema, or not taken. */
  datatype Answer = Accept | Lost | Conflict | Refuse

  /** The server has the payload. */
  predicate Reaches(answer: Answer) { answer == Accept || answer == Lost }

  datatype SendError = BadBatch(error: BatchError) | SchemaMismatch | PostFailed | FetchFailed

  predicate Taken(net: nat -> Answer, k: nat, j: nat) { net(k + j) == Accept }

  /** How many of the payloads go through when posted in order: posting stops at the first that is not accepted. */
  function Through(n: nat, net: nat -> Answer, k: nat, from: nat): (i: nat)
    requires from <= n
    ensures from <= i <= n
    ensures forall j :: from <= j < i ==> Taken(net, k, j)
    ensures i < n ==> !Taken(net, k, i)
    decreases n - from
  {
    if from == n || !Taken(net, k, from) then from else Through(n, net, k, from + 1)
  }

  /** What one pass over the readings does: the payloads the server takes and how it ends. */
  function Pass(readings: seq<Reading>, schema: Schema, version: nat, net: nat -> Answer, k: nat)
    : (seq<Payload>, Option<SendError>)
  {
    match Batches(readings, schema.names, version)
    case Err(e) => ([], Some(BadBatch(e)))
    case Ok(ps) =>
      var n := Through(|ps|, net, k, 0);
      if n == |ps| then (ps, None)
      else
        match net(k + n)
        case Conflict => (ps[..n], Some(SchemaMismatch))
        case Lost => (ps[..n + 1], Some(PostFailed))
        case _ => (ps[..n], Some(PostFailed))
  }

  datatype Outcome = Outcome(taken: seq<Payload>, err: Option<SendError>, schema: Schema)

  /** What a call with readings does: one pass, and after a conflict, if a schema can be fetched, one for that. */
  function Sent(readings: seq<Reading>, schema: Schema, net: nat -> Answer, k: nat, fetched: Option<Schema>): Outcome {
    var p := Pass(readings, schema, schema.version, net, k);
    if p.1 != Some(SchemaMismatch) then Outcome(p.0, p.1, schema)
    else if fetched.None? then Outcome(p.0, Some(FetchFailed), schema)
    else
      var again := Pass(readings, fetched.value, fetched.value.version, net, k + |p.0| + 1);
      Outcome(p.0 + again.0, again.1, fetched.value)
  }

  class Client {
    var schema: Schema
    var version: nat           // localCfg.SchemaVersion
    var pending: seq<Reading>
    var accepted: seq<Payload> // what the server has taken
    var posts: nat

    predicate Valid()
      reads this
    {
      version == schema.version
    }

    constructor (schema: Schema)
      ensures Valid() && this.schema == schema && pending == [] && accepted == []
    {
      this.schema, version, pending, accepted, posts := schema, schema.version, [], [], 0;
    }

    method SetFieldAt(name: string, value: Float64, t: int)
      modifies this`pending
      ensures pending == old(pending) + [Reading(name, value, t)]
    {
      pending := pending + [Reading(name, value, t)];
    }

    /** Posts the readings' batches, built for the schema and version held, until one is not accepted. */
    method SendReadings(readings: seq<Reading>, net: nat -> Answer) returns (err: Option<SendError>)
      modifies this`accepted, this`posts
      ensures var p := Pass(readings, schema, version, net, old(posts)); accepted == old(accepted) + p.0 && err == p.1
      ensures err == Some(SchemaMismatch) ==> posts == old(posts) + |accepted| - |old(accepted)| + 1
    {
      var r := BatchGo.BuildBatches(readings, schema.names, version);
      if r.Err? { return Some(BadBatch(r.error)); }
      err := PostAll(r.value, net);
    }

    /** `postPayload` for each payload in order, up to the first that is not accepted. */
    method PostAll(payloads: seq<Payload>, net: nat -> Answer) returns (err: Option<SendError>)
      modifies this`accepted, this`posts
      ensures var n := Through(|payloads|, net, old(posts), 0);
        && accepted == old(accepted)
                       + payloads[..if n < |payloads| && net(old(posts) + n) == Lost then n + 1 else n]
        && posts == old(posts) + n + (if n < |payloads| then 1 else 0)
        && err == if n == |payloads| then None
                  else if net(old(posts) + n) == Conflict then Some(SchemaMismatch)
                  else Some(PostFailed)
    {
      ghost var k := posts;
      for i := 0 to |payloads|
        invariant posts == k + i && accepted == old(accepted) + payloads[..i]
        invariant Through(|payloads|, net, k, 0) == Through(|payloads|, net, k, i)
      {
        var answer := net(posts);
        posts := posts + 1;
        if answer == Conflict { return Some(SchemaMismatch); }
        if answer == Refuse { return Some(PostFailed); }
        accepted := accepted + [payloads[i]];
        if answer == Lost { return Some(PostFailed); }
      }
      return None;
    }

    /** Empties the buffer; a 409 is answered by fetching the schema and one more pass. */
    method Send(net: nat -> Answer, fetched: Option<Schema>) returns (err: Option<SendError>)
      requires Valid()
      modifies this
      ensures Valid() && pending == []
      ensures old(pending) == [] ==> err == None && accepted == old(accepted) && schema == old(schema)
      ensures old(pending) != [] ==>
        var o := Sent(old(pending), old(schema), net, old(posts), fetched);
        err == o.err && accepted == old(accepted) + o.taken && schema == o.schema
      ensures old(pending) != [] && err == None ==>
        && Batches(old(pending), schema.names, schema.version).Ok?
        && EndsWith(accepted, Batches(old(pending), schema.names, schema.version).value)
    {
      NilTakesAll(pending, schema, net, posts, fetched, accepted);
      var toSend := pending;
      pending := [];
      if |toSend| == 0 { return None; }
      err := SendTaken(toSend, net, fetched);
    }

    /** The part of `Send` after the buffer is taken. */
    method SendTaken(toSend: seq<Reading>, net: nat -> Answer, fetched: Option<Schema>) returns (err: Option<SendError>)
      requires Valid()
      modifies this`schema, this`version, this`accepted, this`posts
      ensures Valid()
      ensures var o := Sent(toSend, old(schema), net, old(posts), fetched);
        err == o.err && accepted == old(accepted) + o.taken && schema == o.schema
    {
      ghost var k, first := posts, Pass(toSend, schema, schema.version, net, posts);
      err := SendReadings(toSend, net);
      if err != Some(SchemaMismatch) { return; }
      assert posts == k + |first.0| + 1;
      err := Resend(toSend, net, fetched);
      if fetched.Some? {
        ConcatAssoc(old(accepted), first.0, Pass(toSend, schema, version, net, k + |first.0| + 1).0);
      }
    }

    /** The part of `Send` after a conflict: the schema fetched is installed, and all readings go out again. */
    method Resend(readings: seq<Reading>, net: nat -> Answer, fetched: Option<Schema>) returns (err: Option<SendError>)
      modifies this`schema, this`version, this`accepted, this`posts
      ensures fetched.None? ==>
        err == Some(FetchFailed) && accepted == old(accepted) && schema == old(schema) && version == old(version)
      ensures fetched.Some? ==>
        var p := Pass(readings, fetched.value, fetched.value.version, net, old(posts));
        && schema == fetched.value && version == fetched.value.version
        && err == p.1 && accepted == old(accepted) + p.0
    {
      if fetched.None? { return Some(FetchFailed); }
      schema := fetched.value;
      version := fetched.value.version;
      err := SendReadings(readings, net);
    }
  }

  /** A pass ends without error exactly when the server has taken every batch of its schema, in order, and has
      answered the last. */
  lemma PassSucceeds(readings: seq<Reading>, schema: Schema, version: nat, net: nat -> Answer, k: nat)
    ensures var (taken, e) := Pass(readings, schema, version, net, k);
      e == None
      <==> && Batches(readings, schema.names, version) == Ok(taken)
           && (taken != [] ==> net(k + |taken| - 1) == Accept)
  {
    match Batches(readings, schema.names, version)
    case Err(_) =>
    case Ok(ps) =>
      var n := Through(|ps|, net, k, 0);
      assert n == |ps| > 0 ==> Taken(net, k, n - 1);
      assert n < |ps| ==> |ps[..n]| == n && |ps[..n + 1]| == n + 1;
  }

  /** The answer to a lone payload is lost: the server has the readings, and `Send` reports an error. */
  lemma LostAnswer(readings: seq<Reading>, schema: Schema, p: Payload, net: nat -> Answer)
    requires Batches(readings, schema.names, schema.version) == Ok([p]) && net(0) == Lost
    ensures Pass(readings, schema, schema.version, net, 0) == ([p], Some(PostFailed))
  {
    assert !Taken(net, 0, 0) && [p][..1] == [p];
  }

  /** The posts from the `k`-th on, `n` of them, are all accepted. */
  predicate AllAccepted(net: nat -> Answer, k: nat, n: nat) {
    forall i :: k <= i < k + n ==> net(i) == Accept
  }

  /** Otherwise the first post that is not accepted decides: its payload is taken as well if its answer is lost. */
  lemma PassStopsAt(readings: seq<Reading>, schema: Schema, version: nat, net: nat -> Answer, k: nat,
                    ps: seq<Payload>, n: nat)
    requires Batches(readings, schema.names, version) == Ok(ps) && n < |ps|
    requires AllAccepted(net, k, n) && net(k + n) != Accept
    ensures Pass(readings, schema, version, net, k)
         == (ps[..if net(k + n) == Lost then n + 1 else n],
             Some(if net(k + n) == Conflict then SchemaMismatch else PostFailed))
  {
    var m := Through(|ps|, net, k, 0);
    forall j | 0 <= j < n ensures Taken(net, k, j) {
      assert net(k + j) == Accept;
    }
    assert m > n ==> Taken(net, k, n);
  }

  lemma PassIsClean(readings: seq<Reading>, schema: Schema, version: nat, net: nat -> Answer, k: nat)
    ensures Pass(readings, schema, version, net, k).1 == None
       <==> && Batches(readings, schema.names, version).Ok?
            && AllAccepted(net, k, |Batches(readings, schema.names, version).value|)
    ensures Pass(readings, schema, version, net, k).1 == None ==>
      Batches(readings, schema.names, version) == Ok(Pass(readings, schema, version, net, k).0)
  {
    match Batches(readings, schema.names, version)
    case Err(_) =>
    case Ok(ps) =>
      var n := Through(|ps|, net, k, 0);
      assert n < |ps| ==> !Taken(net, k, n);
      forall i | k <= i < k + n ensures net(i) == Accept {
        assert Taken(net, k, i - k);
      }
  }

  lemma PassConflicts(readings: seq<Reading>, schema: Schema, version: nat, net: nat -> Answer, k: nat)
    ensures var p := Pass(readings, schema, version, net, k);
      p.1 == Some(SchemaMismatch) <==> ConflictAt(readings, schema, version, net, k, |p.0|)
  {
    var p := Pass(readings, schema, version, net, k);
    match Batches(readings, schema.names, version)
    case Err(_) =>
    case Ok(ps) =>
      var n := Through(|ps|, net, k, 0);
      forall i | k <= i < k + n ensures net(i) == Accept {
        assert Taken(net, k, i - k);
      }
      if ConflictAt(readings, schema, version, net, k, |p.0|) {
        PassStopsAt(readings, schema, version, net, k, ps, |p.0|);
      }
  }

  /** The server accepts the first `n` batches and answers the next with 409. */
  predicate ConflictAt(readings: seq<Reading>, schema: Schema, version: nat, net: nat -> Answer, k: nat, n: nat) {
    match Batches(readings, schema.names, version)
    case Ok(ps) => n < |ps| && AllAccepted(net, k, n) && net(k + n) == Conflict
    case Err(_) => false
  }

  /** All batches for the schema are accepted. */
  predicate Goes(readings: seq<Reading>, schema: Schema, net: nat -> Answer, k: nat) {
    match Batches(readings, schema.names, schema.version)
    case Ok(ps) => AllAccepted(net, k, |ps|)
    case Err(_) => false
  }

  predicate EndsWith(log: seq<Payload>, ps: seq<Payload>) {
    |ps| <= |log| && log[|log| - |ps|..] == ps
  }

  /** What a call with readings returns and leaves, from the answers alone: nil exactly if all batches are accepted for
      the schema held, or, after a first 409 and a schema fetched, for that one; either way the server has taken every
      batch of the schema held in the end. */
  lemma SentNil(readings: seq<Reading>, schema: Schema, net: nat -> Answer, k: nat, fetched: Option<Schema>)
    ensures var o := Sent(readings, schema, net, k, fetched);
      && (o.err == None
          <==> || Goes(readings, schema, net, k)
               || exists n: nat :: && ConflictAt(readings, schema, schema.version, net, k, n)
                                   && fetched.Some? && Goes(readings, fetched.value, net, k + n + 1))
      && (o.err == Some(FetchFailed)
          <==> fetched == None && exists n: nat :: ConflictAt(readings, schema, schema.version, net, k, n))
    ensures var o := Sent(readings, schema, net, k, fetched);
      o.err == None ==>
        && Batches(readings, o.schema.names, o.schema.version).Ok?
        && EndsWith(o.taken, Batches(readings, o.schema.names, o.schema.version).value)
  {
    var p := Pass(readings, schema, schema.version, net, k);
    PassIsClean(readings, schema, schema.version, net, k);
    PassConflicts(readings, schema, schema.version, net, k);
    forall n: nat | ConflictAt(readings, schema, schema.version, net, k, n) ensures n == |p.0| {
      PassStopsAt(readings, schema, schema.version, net, k, Batches(readings, schema.names, schema.version).value, n);
    }
    if p.1 == Some(SchemaMismatch) && fetched.Some? {
      PassIsClean(readings, fetched.value, fetched.value.version, net, k + |p.0| + 1);
      assert Goes(readings, schema, net, k) ==> p.1 == None;
    }
  }

  lemma NilTakesAll(readings: seq<Reading>, schema: Schema, net: nat -> Answer, k: nat, fetched: Option<Schema>,
                    before: seq<Payload>)
    ensures var o := Sent(readings, schema, net, k, fetched);
      o.err == None ==>
        && Batches(readings, o.schema.names, o.schema.version).Ok?
        && EndsWith(before + o.taken, Batches(readings, o.schema.names, o.schema.version).value)
  {
    var o := Sent(readings, schema, net, k, fetched);
    SentNil(readings, schema, net, k, fetched);
    if o.err == None {
      EndsWithMore(before, o.taken, Batches(readings, o.schema.names, o.schema.version).value);
    }
  }

  lemma EndsWithMore(before: seq<Payload>, log: seq<Payload>, ps: seq<Payload>)
    requires EndsWith(log, ps)
    ensures EndsWith(before + log, ps)
  {
    assert (before + log)[|before| + |log| - |ps|..] == log[|log| - |ps|..];
  }

  // ---- many callers ----

  /** A `Send` call between two of its critical sections or posts. One that has returned remembers the payload, of its
      last pass, that was taken but not answered. */
  datatype Call =
    | Ready(batch: seq<Reading>, pass: nat)
    | Posting(batch: seq<Reading>, pass: nat, schema: Schema, version: nat, payloads: seq<Payload>, sent: nat)
    | Fetching(batch: seq<Reading>)
    | Fetched(batch: seq<Reading>, schema: Schema)
    | Returned(batch: seq<Reading>, ok: bool, pass: nat, schema: Schema, lost: Option<nat>)

  datatype Accepted = Accepted(call: nat, pass: nat, payload: Payload)

  /** `recorded`, `taken`, `log` and `conflicts` are histories; the rest is the client and its callers. */
  datatype State = State(schema: Schema, version: nat, pending: seq<Reading>, calls: map<nat, Call>,
                         recorded: seq<Reading>, taken: seq<seq<Reading>>, log: seq<Accepted>, conflicts: set<nat>)

  datatype Action =
    | Record(r: Reading)
    | Take(c: nat)
    | Build(c: nat)
    | Post(c: nat, answer: Answer)
    | Finish(c: nat)
    | Fetch(c: nat, result: Option<Schema>)
    | Install(c: nat)

  function Start(schema: Schema): State { State(schema, schema.version, [], map[], [], [], [], {}) }

  predicate Enabled(s: State, a: Action) {
    match a
    case Record(_) => true
    case Take(c) => c !in s.calls
    case Build(c) => c in s.calls && s.calls[c].Ready?
    case Post(c, _) => c in s.calls && s.calls[c].Posting? && s.calls[c].sent < |s.calls[c].payloads|
    case Finish(c) => c in s.calls && s.calls[c].Posting? && s.calls[c].sent == |s.calls[c].payloads|
    case Fetch(c, _) => c in s.calls && s.calls[c].Fetching?
    case Install(c) => c in s.calls && s.calls[c].Fetched?
  }

  function To(s: State, c: nat, call: Call): State { s.(calls := s.calls[c := call]) }

  function Next(s: State, a: Action): State
    requires Enabled(s, a)
  {
    match a
    case Record(r) => s.(pending := s.pending + [r], recorded := s.recorded + [r])
    case Take(c) =>
      var t := s.(pending := [], taken := s.taken + [s.pending]);
      if s.pending == [] then To(t, c, Returned([], true, 0, s.schema, None)) else To(t, c, Ready(s.pending, 1))
    case Build(c) =>
      var k := s.calls[c];
      (match Batches(k.batch, s.schema.names, s.version)
       case Err(_) => To(s, c, Returned(k.batch, false, k.pass, s.schema, None))
       case Ok(ps) => To(s, c, Posting(k.batch, k.pass, s.schema, s.version, ps, 0)))
    case Post(c, answer) =>
      var k := s.calls[c];
      (match answer
       case Accept => To(s.(log := s.log + [Accepted(c, k.pass, k.payloads[k.sent])]), c, k.(sent := k.sent + 1))
       case Lost =>
         To(s.(log := s.log + [Accepted(c, k.pass, k.payloads[k.sent])]), c,
            Returned(k.batch, false, k.pass, k.schema, Some(k.sent)))
       case Conflict =>
         var t := s.(conflicts := s.conflicts + {c});
         if k.pass == 1 then To(t, c, Fetching(k.batch)) else To(t, c, Returned(k.batch, false, k.pass, k.schema, None))
       case Refuse => To(s, c, Returned(k.batch, false, k.pass, k.schema, None)))
    case Finish(c) => To(s, c, Returned(s.calls[c].batch, true, s.calls[c].pass, s.calls[c].schema, None))
    case Fetch(c, result) =>
      (match result
       case None => To(s, c, Returned(s.calls[c].batch, false, 1, s.schema, None))
       case Some(schema) => To(s, c, Fetched(s.calls[c].batch, schema)))
    case Install(c) =>
      var k := s.calls[c];
      To(s.(schema := k.schema, version := k.schema.version), c, Ready(k.batch, 2))
  }

  function Run(schema: Schema, actions: seq<Action>): State {
    if actions == [] then Start(schema)
    else
      var s, a := Run(schema, actions[..|actions| - 1]), actions[|actions| - 1];
      if Enabled(s, a) then Next(s, a) else s
  }

  /** No reading is lost or doubled on its way through the buffer: the batches taken, in lock order, then the buffer,
      are what was recorded. */
  lemma {:induction false} TakenThenPending(schema: Schema, actions: seq<Action>)
    ensures var s := Run(schema, actions); Flatten(s.taken) + s.pending == s.recorded
  {
    if actions != [] {
      var s, a := Run(schema, actions[..|actions| - 1]), actions[|actions| - 1];
      TakenThenPending(schema, actions[..|actions| - 1]);
      if a.Take? { FlattenSnoc(s.taken, s.pending); }
    }
  }

  /** The payloads of one pass of one call that the server has taken. */
  function AcceptedOf(log: seq<Accepted>, c: nat, pass: nat): seq<Payload> {
    if log == [] then []
    else
      var l := log[|log| - 1];
      AcceptedOf(log[..|log| - 1], c, pass) + (if l.call == c && l.pass == pass then [l.payload] else [])
  }

  /** What holds of a call at each point of its run. */
  ghost predicate CallKept(s: State, c: nat) {
    if c !in s.calls then forall p :: AcceptedOf(s.log, c, p) == []
    else
      match s.calls[c]
      case Ready(batch, pass) =>
        && batch != [] && 1 <= pass <= 2 && (pass == 2 ==> c in s.conflicts)
        && forall p :: p >= pass ==> AcceptedOf(s.log, c, p) == []
      case Posting(batch, pass, schema, version, payloads, sent) =>
        && batch != [] && 1 <= pass <= 2 && (pass == 2 ==> c in s.conflicts)
        && version == schema.version && Batches(batch, schema.names, version) == Ok(payloads) && sent <= |payloads|
        && AcceptedOf(s.log, c, pass) == payloads[..sent]
        && forall p :: p > pass ==> AcceptedOf(s.log, c, p) == []
      case Fetching(batch) => batch != [] && c in s.conflicts && forall p :: p >= 2 ==> AcceptedOf(s.log, c, p) == []
      case Fetched(batch, _) => batch != [] && c in s.conflicts && forall p :: p >= 2 ==> AcceptedOf(s.log, c, p) == []
      case Returned(batch, ok, pass, schema, _) =>
        && pass <= 2 && (pass == 2 ==> c in s.conflicts)
        && (forall p :: p > pass ==> AcceptedOf(s.log, c, p) == [])
        && (ok && batch != [] ==> Batches(batch, schema.names, schema.version) == Ok(AcceptedOf(s.log, c, pass)))
  }

  lemma AcceptedNext(log: seq<Accepted>, l: Accepted, c: nat, p: nat)
    ensures AcceptedOf(log + [l], c, p)
         == AcceptedOf(log, c, p) + (if l.call == c && l.pass == p then [l.payload] else [])
  {
  }

  /** Nothing of a call has changed: not where it is, and not what the server has of it. */
  ghost predicate SameCall(s: State, t: State, c: nat) {
    && (c in t.calls <==> c in s.calls) && (c in s.calls ==> t.calls[c] == s.calls[c])
    && (c in t.conflicts <==> c in s.conflicts)
    && forall p :: AcceptedOf(t.log, c, p) == AcceptedOf(s.log, c, p)
  }

  /** A step of another call, or of no call, leaves a call alone. */
  lemma OtherStep(s: State, a: Action, c: nat)
    requires Enabled(s, a) && (a.Record? || a.c != c)
    ensures SameCall(s, Next(s, a), c)
  {
    if a.Post? && Reaches(a.answer) {
      var k := s.calls[a.c];
      OthersLog(s.log, Accepted(a.c, k.pass, k.payloads[k.sent]), c);
    } else {
      assert Next(s, a).log == s.log;
    }
  }

  lemma OthersLog(log: seq<Accepted>, l: Accepted, c: nat)
    requires l.call != c
    ensures forall p :: AcceptedOf(log + [l], c, p) == AcceptedOf(log, c, p)
  {
    forall p ensures AcceptedOf(log + [l], c, p) == AcceptedOf(log, c, p) {
      AcceptedNext(log, l, c, p);
    }
  }

  lemma SameCallKept(s: State, t: State, c: nat)
    requires SameCall(s, t, c) && CallKept(s, c)
    ensures CallKept(t, c)
  {
  }

  lemma AcceptStepLog(log: seq<Accepted>, l: Accepted, payloads: seq<Payload>, sent: nat)
    requires sent < |payloads| && l.payload == payloads[sent] && AcceptedOf(log, l.call, l.pass) == payloads[..sent]
    ensures AcceptedOf(log + [l], l.call, l.pass) == payloads[..sent + 1]
    ensures forall p :: p != l.pass ==> AcceptedOf(log + [l], l.call, p) == AcceptedOf(log, l.call, p)
  {
    AcceptedNext(log, l, l.call, l.pass);
    forall p | p != l.pass ensures AcceptedOf(log + [l], l.call, p) == AcceptedOf(log, l.call, p) {
      AcceptedNext(log, l, l.call, p);
    }
  }

  lemma AcceptStep(s: State, c: nat, answer: Answer)
    requires CallKept(s, c) && Enabled(s, Post(c, answer)) && Reaches(answer)
    ensures CallKept(Next(s, Post(c, answer)), c)
  {
    var k, t := s.calls[c], Next(s, Post(c, answer));
    AcceptStepLog(s.log, Accepted(c, k.pass, k.payloads[k.sent]), k.payloads, k.sent);
    assert answer == Accept ==> t.calls[c] == k.(sent := k.sent + 1);
  }

  /** Every other step of a call leaves the server's log alone. */
  lemma QuietStep(s: State, a: Action)
    requires s.version == s.schema.version && !a.Record? && CallKept(s, a.c) && Enabled(s, a)
    requires a.Post? ==> !Reaches(a.answer)
    ensures CallKept(Next(s, a), a.c)
  {
    assert Next(s, a).log == s.log;
    if a.Finish? {
      var k := s.calls[a.c];
      assert k.payloads[..k.sent] == k.payloads;
    }
  }

  lemma CallStep(s: State, a: Action, c: nat)
    requires s.version == s.schema.version && CallKept(s, c) && Enabled(s, a)
    ensures CallKept(Next(s, a), c)
  {
    if a.Record? || a.c != c {
      OtherStep(s, a, c);
      SameCallKept(s, Next(s, a), c);
    } else if a.Post? && Reaches(a.answer) {
      AcceptStep(s, c, a.answer);
    } else {
      QuietStep(s, a);
    }
  }

  /** The schema and the version the client holds always belong together. */
  lemma {:induction false} VersionOfSchema(schema: Schema, actions: seq<Action>)
    ensures Run(schema, actions).version == Run(schema, actions).schema.version
  {
    if actions != [] {
      VersionOfSchema(schema, actions[..|actions| - 1]);
    }
  }

  lemma {:induction false} AlwaysKept(schema: Schema, actions: seq<Action>, c: nat)
    ensures CallKept(Run(schema, actions), c)
  {
    if actions != [] {
      var front := actions[..|actions| - 1];
      AlwaysKept(schema, front, c);
      VersionOfSchema(schema, front);
      var s, a := Run(schema, front), actions[|actions| - 1];
      if Enabled(s, a) { CallStep(s, a, c); }
    }
  }

  /** A `Send` with readings returns nil only if every batch built for one schema and its version was accepted in order;
      it makes at most two passes, and the second only after a conflict. */
  lemma SendDelivers(schema: Schema, actions: seq<Action>, c: nat)
    requires c in Run(schema, actions).calls && Run(schema, actions).calls[c].Returned?
    ensures var s := Run(schema, actions); var k := s.calls[c];
      && k.pass <= 2 && (k.pass == 2 ==> c in s.conflicts)
      && (forall p :: p > 2 ==> AcceptedOf(s.log, c, p) == [])
      && (k.ok && k.batch != [] ==>
            Batches(k.batch, k.schema.names, k.schema.version) == Ok(AcceptedOf(s.log, c, k.pass)))
  {
    AlwaysKept(schema, actions, c);
  }

  /** So a `Send` that returned nil has delivered its readings: the payloads accepted in its last pass carry the runs
      the readings are cut into, each field's last value and offset. */
  lemma NilMeansDelivered(schema: Schema, actions: seq<Action>, c: nat)
    requires c in Run(schema, actions).calls
    requires var k := Run(schema, actions).calls[c]; k.Returned? && k.ok && k.batch != []
    ensures var s := Run(schema, actions); var k := s.calls[c];
      var got, runs := AcceptedOf(s.log, c, k.pass), Runs(k.batch, 0);
      && BatchTheorems.IsCutting(runs, k.batch) && |got| == |runs|
      && forall i :: 0 <= i < |got| ==>
           AllKnown(runs[i], k.schema.names) && BatchTheorems.Carries(got[i], runs[i], k.schema.names, k.schema.version)
  {
    SendDelivers(schema, actions, c);
    var k := Run(schema, actions).calls[c];
    RunsNonEmpty(k.batch, 0);
    BatchTheorems.BatchesDeliver(k.batch, k.schema.names, k.schema.version);
  }

  // ---- how often a run is delivered ----

  /** The payloads are those of the batch's first runs, in order, for some schema. */
  ghost predicate FirstRuns(got: seq<Payload>, batch: seq<Reading>) {
    got == [] || exists schema :: PrefixFor(got, batch, schema)
  }

  predicate PrefixFor(got: seq<Payload>, batch: seq<Reading>, schema: Schema) {
    match Batches(batch, schema.names, schema.version)
    case Ok(ps) => got <= ps
    case Err(_) => false
  }

  predicate FirstPassOver(k: Call) {
    k.Fetching? || k.Fetched? || k.pass == 2
  }

  /** How far the passes of a call have come, counted in runs. */
  ghost predicate PassesCounted(k: Call, first: seq<Payload>, second: seq<Payload>) {
    && FirstRuns(first, k.batch) && FirstRuns(second, k.batch)
    && LengthsCounted(k, |first|, |second|, |Runs(k.batch, 0)|)
  }

  /** In a batch of `n` runs. */
  predicate LengthsCounted(k: Call, first: nat, second: nat, n: nat) {
    && (FirstPassOver(k) ==> first < n)
    && (k.Returned? ==>
          var last := if k.pass == 1 then first else second;
          if k.ok then k.pass >= 1 && last == n && k.lost == None
          else if k.lost == None then first < n && second < n
          else k.pass >= 1 && last == k.lost.value + 1)
  }

  ghost predicate Counted(s: State, c: nat) {
    c in s.calls && s.calls[c].batch != [] ==>
      PassesCounted(s.calls[c], AcceptedOf(s.log, c, 1), AcceptedOf(s.log, c, 2))
  }

  lemma PrefixIsFirstRuns(got: seq<Payload>, batch: seq<Reading>, schema: Schema, ps: seq<Payload>)
    requires Batches(batch, schema.names, schema.version) == Ok(ps) && got <= ps
    ensures FirstRuns(got, batch) && |ps| == |Runs(batch, 0)|
  {
    assert PrefixFor(got, batch, schema);
  }

  lemma SomeRun(batch: seq<Reading>)
    ensures batch != [] ==> |Runs(batch, 0)| > 0
  {
  }

  /** One payload more of the pass under way. */
  lemma OneMoreCounted(k: Call, first: seq<Payload>, second: seq<Payload>)
    requires k.Posting? && 1 <= k.pass <= 2 && k.sent < |k.payloads| && PassesCounted(k, first, second)
    requires Batches(k.batch, k.schema.names, k.schema.version) == Ok(k.payloads)
    ensures var more := k.payloads[..k.sent + 1];
      PassesCounted(k.(sent := k.sent + 1), if k.pass == 1 then more else first, if k.pass == 1 then second else more)
  {
    PrefixIsFirstRuns(k.payloads[..k.sent + 1], k.batch, k.schema, k.payloads);
  }

  /** The same payload taken, but not answered. */
  lemma OneLostCounted(k: Call, first: seq<Payload>, second: seq<Payload>)
    requires k.Posting? && 1 <= k.pass <= 2 && k.sent < |k.payloads| && PassesCounted(k, first, second)
    requires Batches(k.batch, k.schema.names, k.schema.version) == Ok(k.payloads)
    ensures var more := k.payloads[..k.sent + 1];
      PassesCounted(Returned(k.batch, false, k.pass, k.schema, Some(k.sent)),
                    if k.pass == 1 then more else first, if k.pass == 1 then second else more)
  {
    PrefixIsFirstRuns(k.payloads[..k.sent + 1], k.batch, k.schema, k.payloads);
  }

  /** A payload taken lengthens what the server has of its pass, and of no other. */
  lemma TakenOf(s: State, c: nat, answer: Answer)
    requires CallKept(s, c) && Enabled(s, Post(c, answer)) && Reaches(answer)
    ensures var k, log := s.calls[c], Next(s, Post(c, answer)).log; var more := k.payloads[..k.sent + 1];
      && AcceptedOf(log, c, 1) == (if k.pass == 1 then more else AcceptedOf(s.log, c, 1))
      && AcceptedOf(log, c, 2) == (if k.pass == 1 then AcceptedOf(s.log, c, 2) else more)
  {
    var k := s.calls[c];
    AcceptStepLog(s.log, Accepted(c, k.pass, k.payloads[k.sent]), k.payloads, k.sent);
  }

  lemma AcceptStepCounted(s: State, c: nat, answer: Answer)
    requires Counted(s, c) && CallKept(s, c) && Enabled(s, Post(c, answer)) && Reaches(answer)
    ensures Counted(Next(s, Post(c, answer)), c)
  {
    var k, t := s.calls[c], Next(s, Post(c, answer));
    TakenOf(s, c, answer);
    if answer == Accept {
      OneMoreCounted(k, AcceptedOf(s.log, c, 1), AcceptedOf(s.log, c, 2));
      assert t.calls[c] == k.(sent := k.sent + 1);
    } else {
      OneLostCounted(k, AcceptedOf(s.log, c, 1), AcceptedOf(s.log, c, 2));
      assert t.calls[c] == Returned(k.batch, false, k.pass, k.schema, Some(k.sent));
    }
  }

  /** Every other step of a call leaves the counts alone. */
  lemma QuietStepCounted(s: State, a: Action)
    requires s.version == s.schema.version && !a.Record? && Enabled(s, a) && (a.Post? ==> !Reaches(a.answer))
    requires Counted(s, a.c) && CallKept(s, a.c)
    ensures Counted(Next(s, a), a.c)
  {
    var t := Next(s, a);
    assert t.log == s.log;
    if a.Take? {
      SomeRun(s.pending);
    } else {
      var k := s.calls[a.c];
      var first, second := AcceptedOf(s.log, a.c, 1), AcceptedOf(s.log, a.c, 2);
      SomeRun(k.batch);
      if k.Posting? {
        PrefixIsFirstRuns(k.payloads[..k.sent], k.batch, k.schema, k.payloads);
      }
      assert t.calls[a.c].batch == k.batch;
      assert PassesCounted(t.calls[a.c], first, second);
    }
  }

  lemma {:induction false} AlwaysCounted(schema: Schema, actions: seq<Action>, c: nat)
    ensures Counted(Run(schema, actions), c)
  {
    if actions != [] {
      var front := actions[..|actions| - 1];
      AlwaysCounted(schema, front, c);
      AlwaysKept(schema, front, c);
      VersionOfSchema(schema, front);
      var s, a := Run(schema, front), actions[|actions| - 1];
      if Enabled(s, a) {
        if a.Record? || a.c != c {
          OtherStep(s, a, c);
        } else if a.Post? && Reaches(a.answer) {
          AcceptStepCounted(s, c, a.answer);
        } else {
          QuietStepCounted(s, a);
        }
      }
    }
  }

  /** How often the server has taken a payload of the `r`-th run, having that many of the two passes. */
  function Deliveries(first: nat, second: nat, r: nat): nat {
    (if r < first then 1 else 0) + (if r < second then 1 else 0)
  }

  /** The server has taken the last of the `n` payloads of the call's last pass: the call returned nil, or only that
      answer was lost. */
  predicate LastTaken(k: Call, n: nat)
    requires k.Returned?
  {
    k.ok || k.lost == Some(n - 1)
  }

  lemma RunsDelivered(k: Call, first: nat, second: nat, n: nat)
    requires k.Returned? && k.pass <= 2 && LengthsCounted(k, first, second, n) && (k.pass < 2 ==> second == 0)
    requires n > 0 && first <= n && second <= n
    ensures LastTaken(k, n) <==> forall r: nat :: r < n ==> Deliveries(first, second, r) >= 1
    ensures LastTaken(k, n) && (k.pass == 2 ==> first == 0)
       <==> forall r: nat :: r < n ==> Deliveries(first, second, r) == 1
  {
    if !LastTaken(k, n) { assert Deliveries(first, second, n - 1) == 0; }
    if LastTaken(k, n) && k.pass == 2 && first > 0 { assert Deliveries(first, second, 0) == 2; }
  }

  /** When a `Send` returns, every run has been delivered exactly if it returns nil or lost the answer to its very last
      payload; and each exactly once if besides nothing had been taken before the conflict, if there was one: a second
      pass starts again from the first run. */
  lemma DeliveredOnce(schema: Schema, actions: seq<Action>, c: nat)
    requires c in Run(schema, actions).calls
    requires var k := Run(schema, actions).calls[c]; k.Returned? && k.batch != []
    ensures var s := Run(schema, actions); var k := s.calls[c];
      var first, second, n := AcceptedOf(s.log, c, 1), AcceptedOf(s.log, c, 2), |Runs(k.batch, 0)|;
      && FirstRuns(first, k.batch) && FirstRuns(second, k.batch)
      && (LastTaken(k, n) <==> forall r: nat :: r < n ==> Deliveries(|first|, |second|, r) >= 1)
      && (LastTaken(k, n) && (k.pass == 2 ==> first == [])
          <==> forall r: nat :: r < n ==> Deliveries(|first|, |second|, r) == 1)
  {
    AlwaysCounted(schema, actions, c);
    AlwaysKept(schema, actions, c);
    var s := Run(schema, actions);
    var k := s.calls[c];
    var n := |Runs(k.batch, 0)|;
    SomeRun(k.batch);
    PassLengths(s, c, n, 1);
    PassLengths(s, c, n, 2);
    RunsDelivered(k, |AcceptedOf(s.log, c, 1)|, |AcceptedOf(s.log, c, 2)|, n);
  }

  lemma PassLengths(s: State, c: nat, n: nat, pass: nat)
    requires c in s.calls && FirstRuns(AcceptedOf(s.log, c, pass), s.calls[c].batch) && n == |Runs(s.calls[c].batch, 0)|
    ensures |AcceptedOf(s.log, c, pass)| <= n
  {
    var got, batch := AcceptedOf(s.log, c, pass), s.calls[c].batch;
    if got != [] {
      var schema :| PrefixFor(got, batch, schema);
      PrefixIsFirstRuns(got, batch, schema, Batches(batch, schema.names, schema.version).value);
    }
  }

  /** A conflict on the second payload: the second pass delivers the first run again. */
  lemma ResentAfterConflict(readings: seq<Reading>, schema: Schema, ps: seq<Payload>, net: nat -> Answer)
    requires Batches(readings, schema.names, schema.version) == Ok(ps) && |ps| >= 2
    requires net(0) == Accept && net(1) == Conflict && forall i :: i >= 2 ==> net(i) == Accept
    ensures Pass(readings, schema, schema.version, net, 0) == ([ps[0]], Some(SchemaMismatch))
    ensures Pass(readings, schema, schema.version, net, 2) == (ps, None)
  {
    assert Taken(net, 0, 0) && !Taken(net, 0, 1);
    assert Through(|ps|, net, 0, 0) == 1 && ps[..1] == [ps[0]];
    assert Through(|ps|, net, 2, 0) == |ps| && ps[..|ps|] == ps;
  }
}
