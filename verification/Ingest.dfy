/** services/ingestion/internal/application/ingest_service.go: fields grouped by timestamp, all-or-nothing
    batches and bounded replay. Go's unordered map iteration is a choice of any remaining field. */
module Ingest {
  import opened Prelude
  import opened IngestDomain

  datatype Input = Input(channelId: string, deviceId: string, fields: Fields, stamps: map<string, Option<int>>,
                         tags: map<string, string>, timestamp: Option<int>)

  // ---- grouping ----

  /** The times that decide a field's group: its own, if it has one, else the default. */
  datatype Clocks = Clocks(stamps: map<string, Option<int>>, defaultTS: int) {
    predicate Own(field: string) {
      field in stamps && stamps[field].Some?
    }

    function Effective(field: string): int {
      if Own(field) then stamps[field].value else defaultTS
    }

    function Check(maxAge: int, now: int, field: string): Option<Fault> {
      if Own(field) then ValidateTimestamp(stamps[field].value, maxAge, now) else None
    }
  }

  /** The fields that take effect at one instant. */
  function FieldsAt(fields: Fields, c: Clocks, ts: int): Fields {
    map f | f in fields && c.Effective(f) == ts :: fields[f]
  }

  datatype Group = Group(ts: int, fields: Fields)

  /** The groups are the fields split by effective time: one group an instant, none empty. */
  ghost predicate IsSplit(groups: seq<Group>, fields: Fields, c: Clocks) {
    && (forall i, j :: 0 <= i < j < |groups| ==> groups[i].ts != groups[j].ts)
    && (forall i :: 0 <= i < |groups| ==>
          groups[i].fields == FieldsAt(fields, c, groups[i].ts) && groups[i].fields != map[])
    && forall f :: f in fields ==> exists i :: 0 <= i < |groups| && groups[i].ts == c.Effective(f)
  }

  /** Index of the group of an instant, or the number of groups. */
  function Find(groups: seq<Group>, ts: int): (i: nat)
    ensures i <= |groups|
    ensures forall j :: 0 <= j < i ==> groups[j].ts != ts
    ensures i < |groups| ==> groups[i].ts == ts
  {
    if groups == [] then 0 else if groups[0].ts == ts then 0 else 1 + Find(groups[1..], ts)
  }

  function Put(groups: seq<Group>, ts: int, field: string, value: Float64): seq<Group> {
    var i := Find(groups, ts);
    if i < |groups| then groups[i := Group(ts, groups[i].fields[field := value])]
    else groups + [Group(ts, map[field := value])]
  }

  /** `findOrCreate(ts)[fieldName] = value`: a linear scan for the instant, then the write. */
  method AddField(groups: seq<Group>, ts: int, field: string, value: Float64) returns (r: seq<Group>)
    ensures r == Put(groups, ts, field, value)
  {
    for i := 0 to |groups|
      invariant forall j :: 0 <= j < i ==> groups[j].ts != ts
    {
      if groups[i].ts == ts {
        return groups[i := Group(ts, groups[i].fields[field := value])];
      }
    }
    return groups + [Group(ts, map[field := value])];
  }

  lemma FieldsAtAdd(done: Fields, c: Clocks, field: string, value: Float64, ts: int)
    ensures FieldsAt(done[field := value], c, ts)
         == if c.Effective(field) == ts then FieldsAt(done, c, ts)[field := value] else FieldsAt(done, c, ts)
  {
  }

  lemma NoneAt(groups: seq<Group>, done: Fields, c: Clocks, ts: int)
    requires IsSplit(groups, done, c) && Find(groups, ts) == |groups|
    ensures FieldsAt(done, c, ts) == map[]
  {
  }

  lemma PutGroup(groups: seq<Group>, done: Fields, c: Clocks, field: string, value: Float64, i: nat)
    requires IsSplit(groups, done, c) && field !in done
    requires i < |Put(groups, c.Effective(field), field, value)|
    ensures var g := Put(groups, c.Effective(field), field, value)[i];
      g.fields == FieldsAt(done[field := value], c, g.ts) && g.fields != map[]
  {
    var ts := c.Effective(field);
    var g := Put(groups, ts, field, value)[i];
    FieldsAtAdd(done, c, field, value, g.ts);
    if i == |groups| { NoneAt(groups, done, c, ts); }
    assert g.ts == ts ==> field in g.fields;
  }

  lemma PutCovers(groups: seq<Group>, done: Fields, c: Clocks, field: string, value: Float64, f: string)
    requires IsSplit(groups, done, c) && (f in done || f == field)
    ensures var r := Put(groups, c.Effective(field), field, value);
      exists i :: 0 <= i < |r| && r[i].ts == c.Effective(f)
  {
    var k, r := Find(groups, c.Effective(field)), Put(groups, c.Effective(field), field, value);
    if f == field {
      assert r[k].ts == c.Effective(field);
    } else {
      var i :| 0 <= i < |groups| && groups[i].ts == c.Effective(f);
      assert r[i].ts == groups[i].ts;
    }
  }

  lemma PutDistinct(groups: seq<Group>, ts: int, field: string, value: Float64)
    requires forall i, j :: 0 <= i < j < |groups| ==> groups[i].ts != groups[j].ts
    ensures var r := Put(groups, ts, field, value); forall i, j :: 0 <= i < j < |r| ==> r[i].ts != r[j].ts
  {
  }

  /** One more field keeps the groups a split of the fields seen. */
  lemma SplitAdd(groups: seq<Group>, done: Fields, c: Clocks, field: string, value: Float64)
    requires IsSplit(groups, done, c) && field !in done
    ensures IsSplit(Put(groups, c.Effective(field), field, value), done[field := value], c)
  {
    var r := Put(groups, c.Effective(field), field, value);
    PutDistinct(groups, c.Effective(field), field, value);
    forall i | 0 <= i < |r| ensures r[i].fields == FieldsAt(done[field := value], c, r[i].ts) && r[i].fields != map[] {
      PutGroup(groups, done, c, field, value, i);
    }
    forall f | f in done[field := value] ensures exists i :: 0 <= i < |r| && r[i].ts == c.Effective(f) {
      PutCovers(groups, done, c, field, value, f);
    }
  }

  /** The fields can always be split. */
  lemma SplitExists(fields: Fields, c: Clocks) returns (groups: seq<Group>)
    ensures IsSplit(groups, fields, c)
    decreases fields.Keys
  {
    if fields == map[] {
      groups := [];
    } else {
      assert fields.Keys != {};
      var f := Pick(fields.Keys);
      var rest := fields - {f};
      assert f !in rest.Keys;
      var before := SplitExists(rest, c);
      SplitAdd(before, rest, c, f, fields[f]);
      groups := Put(before, c.Effective(f), f, fields[f]);
      assert rest[f := fields[f]] == fields;
    }
  }

  function AsReading(channelId: string, deviceId: string, tags: map<string, string>, g: Group): Reading {
    Reading(channelId, deviceId, g.fields, tags, g.ts)
  }

  function AsReadings(channelId: string, deviceId: string, tags: map<string, string>, groups: seq<Group>)
    : (r: seq<Reading>)
    ensures |r| == |groups|
    ensures forall i :: 0 <= i < |r| ==> r[i] == AsReading(channelId, deviceId, tags, groups[i])
  {
    seq(|groups|, i requires 0 <= i < |groups| => AsReading(channelId, deviceId, tags, groups[i]))
  }

  method GroupByTimestamp(channelId: string, deviceId: string, fields: Fields, c: Clocks, tags: map<string, string>,
                          maxAge: int, now: int)
    returns (r: Result<seq<Reading>, (string, Fault)>)
    ensures r.Ok? <==> forall f :: f in fields ==> c.Check(maxAge, now, f).None?
    ensures r.Ok? ==>
      exists groups :: IsSplit(groups, fields, c) && r.value == AsReadings(channelId, deviceId, tags, groups)
    ensures r.Err? ==> r.error.0 in fields && c.Check(maxAge, now, r.error.0) == Some(r.error.1)
  {
    var groups: seq<Group> := [];
    var left := fields;
    ghost var done: Fields := map[];
    while left != map[]
      invariant left == fields - done.Keys && done == fields - left.Keys
      invariant forall f :: f in done ==> c.Check(maxAge, now, f).None?
      invariant IsSplit(groups, done, c)
      decreases left.Keys
    {
      var field := PickKey(left);
      var ts := c.defaultTS;
      if field in c.stamps && c.stamps[field].Some? {
        var fault := ValidateTimestamp(c.stamps[field].value, maxAge, now);
        if fault.Some? { return Err((field, fault.value)); }
        ts := c.stamps[field].value;
      }
      SplitAdd(groups, done, c, field, fields[field]);
      groups := AddField(groups, ts, field, fields[field]);
      MoveField(fields, left, done, field);
      left, done := left - {field}, done[field := fields[field]];
    }
    assert done == fields;
    return Ok(AsReadings(channelId, deviceId, tags, groups));
  }

  lemma MoveField(fields: Fields, left: Fields, done: Fields, field: string)
    requires left == fields - done.Keys && done == fields - left.Keys && field in left
    ensures left - {field} == fields - done[field := fields[field]].Keys
    ensures done[field := fields[field]] == fields - (left - {field}).Keys
    ensures (left - {field}).Keys < left.Keys
  {
  }

  /** Any two splits of the same fields have the same groups, so the iteration order can only permute the readings. */
  lemma SplitUnique(a: seq<Group>, b: seq<Group>, fields: Fields, c: Clocks)
    requires IsSplit(a, fields, c) && IsSplit(b, fields, c)
    ensures multiset(a) == multiset(b)
  {
    forall g ensures multiset(a)[g] == multiset(b)[g] {
      GroupCount(a, fields, c, g);
      GroupCount(b, fields, c, g);
    }
  }

  lemma GroupCount(a: seq<Group>, fields: Fields, c: Clocks, g: Group)
    requires IsSplit(a, fields, c)
    ensures multiset(a)[g] == if g.fields == FieldsAt(fields, c, g.ts) && g.fields != map[] then 1 else 0
  {
    if g.fields != map[] && g.fields == FieldsAt(fields, c, g.ts) {
      assert g.fields.Keys != {};
      var f := Pick(g.fields.Keys);
      var i :| 0 <= i < |a| && a[i].ts == c.Effective(f);
      assert a[i] == g;
    }
    if g in a {
      var i :| 0 <= i < |a| && a[i] == g;
      OnceIn(a, i);
    }
  }

  lemma OnceIn(a: seq<Group>, i: nat)
    requires i < |a| && forall j, k :: 0 <= j < k < |a| ==> a[j].ts != a[k].ts
    ensures multiset(a)[a[i]] == 1
  {
    var rest := a[..i] + a[i + 1..];
    assert a == a[..i] + [a[i]] + a[i + 1..];
    assert multiset(a) == multiset(rest) + multiset{a[i]};
    forall k | 0 <= k < |rest| ensures rest[k] != a[i] {
    }
  }

  /** The groups are disjoint and lose nothing: each field is in the group of its effective time and no other. */
  lemma SplitPartitions(groups: seq<Group>, fields: Fields, c: Clocks, f: string)
    requires IsSplit(groups, fields, c)
    ensures f in fields <==> exists i :: 0 <= i < |groups| && f in groups[i].fields
    ensures forall i, j :: 0 <= i < j < |groups| ==> groups[i].fields.Keys !! groups[j].fields.Keys
    ensures forall i :: 0 <= i < |groups| && f in groups[i].fields ==>
      f in fields && groups[i].fields[f] == fields[f] && groups[i].ts == c.Effective(f)
  {
  }

  // ---- requests ----

  datatype Failure = ItemFault(item: nat, fault: Fault) | PublishFault

  datatype DlqEntry = DlqEntry(channelId: string, deviceId: string, ts: int, fields: Fields, failedAt: int)

  function ClocksOf(inp: Input, now: int): Clocks {
    Clocks(inp.stamps, if inp.timestamp.Some? then inp.timestamp.value else now)
  }

  /** The fault of the item may be reported: of several bad field stamps, any one is. */
  predicate Faulty(inp: Input, maxAge: int, now: int, fault: Fault) {
    if !ValidChannelId(inp.channelId) then fault == InvalidChannelId
    else if inp.fields == map[] then fault == EmptyFields
    else if inp.timestamp.Some? && ValidateTimestamp(inp.timestamp.value, maxAge, now).Some? then
      Some(fault) == ValidateTimestamp(inp.timestamp.value, maxAge, now)
    else exists f :: f in inp.fields && ClocksOf(inp, now).Check(maxAge, now, f) == Some(fault)
  }

  predicate Accepted(inp: Input, maxAge: int, now: int) {
    && ValidChannelId(inp.channelId) && inp.fields != map[]
    && (inp.timestamp.Some? ==> ValidateTimestamp(inp.timestamp.value, maxAge, now).None?)
    && forall f :: f in inp.fields ==> ClocksOf(inp, now).Check(maxAge, now, f).None?
  }

  /** An item is accepted exactly when it has no fault to report. */
  lemma AcceptedOrFaulty(inp: Input, maxAge: int, now: int)
    ensures Accepted(inp, maxAge, now) <==> forall fault :: !Faulty(inp, maxAge, now, fault)
  {
    if !Accepted(inp, maxAge, now) {
      if !ValidChannelId(inp.channelId) {
        assert Faulty(inp, maxAge, now, InvalidChannelId);
      } else if inp.fields == map[] {
        assert Faulty(inp, maxAge, now, EmptyFields);
      } else if inp.timestamp.Some? && ValidateTimestamp(inp.timestamp.value, maxAge, now).Some? {
        assert Faulty(inp, maxAge, now, ValidateTimestamp(inp.timestamp.value, maxAge, now).value);
      } else {
        var f :| f in inp.fields && ClocksOf(inp, now).Check(maxAge, now, f).Some?;
        assert Faulty(inp, maxAge, now, ClocksOf(inp, now).Check(maxAge, now, f).value);
      }
    }
  }

  /** In terms of the request: id, fields, its own time and its fields' own times are checked, each by the clock. */
  lemma AcceptedMeans(inp: Input, maxAge: int, now: int)
    ensures Accepted(inp, maxAge, now)
       <==> && ValidChannelId(inp.channelId) && inp.fields != map[]
            && (inp.timestamp.Some? ==> InTime(inp.timestamp.value, maxAge, now))
            && forall f :: f in inp.fields && f in inp.stamps && inp.stamps[f].Some? ==>
                 InTime(inp.stamps[f].value, maxAge, now)
  {
    if inp.timestamp.Some? { TimestampAcceptance(inp.timestamp.value, maxAge, now); }
    forall f | f in inp.fields
      ensures ClocksOf(inp, now).Check(maxAge, now, f).None?
         <==> (f in inp.stamps && inp.stamps[f].Some? ==> InTime(inp.stamps[f].value, maxAge, now))
    {
      if f in inp.stamps && inp.stamps[f].Some? { TimestampAcceptance(inp.stamps[f].value, maxAge, now); }
    }
  }

  /** One of the times the request gives is wrong in that way. */
  predicate BadTime(inp: Input, maxAge: int, now: int, fault: Fault) {
    || (inp.timestamp.Some? && ValidateTimestamp(inp.timestamp.value, maxAge, now) == Some(fault))
    || exists f :: f in inp.fields && f in inp.stamps && inp.stamps[f].Some?
                   && ValidateTimestamp(inp.stamps[f].value, maxAge, now) == Some(fault)
  }

  /** A fault is reported for what it names, a bad id first, then missing fields, then a bad time. */
  lemma FaultMeans(inp: Input, maxAge: int, now: int, fault: Fault)
    requires Faulty(inp, maxAge, now, fault)
    ensures fault == InvalidChannelId <==> !ValidChannelId(inp.channelId)
    ensures fault == EmptyFields <==> ValidChannelId(inp.channelId) && inp.fields == map[]
    ensures ValidChannelId(inp.channelId) && inp.fields != map[] ==>
      fault in {TimestampFuture, TimestampTooOld} && BadTime(inp, maxAge, now, fault)
  {
  }

  /** Index of the first item from `from` on that is not accepted, or the number of items. */
  function FirstBad(inputs: seq<Input>, from: nat, maxAge: int, now: int): (k: nat)
    requires from <= |inputs|
    ensures from <= k <= |inputs|
    ensures k < |inputs| ==> !Accepted(inputs[k], maxAge, now)
    ensures forall j :: from <= j < k ==> Accepted(inputs[j], maxAge, now)
    decreases |inputs| - from
  {
    if from == |inputs| || !Accepted(inputs[from], maxAge, now) then from else FirstBad(inputs, from + 1, maxAge, now)
  }

  /** The readings of one item: its fields' groups, in some order. */
  ghost predicate IsItem(readings: seq<Reading>, inp: Input, now: int) {
    exists groups :: IsSplit(groups, inp.fields, ClocksOf(inp, now))
                     && readings == AsReadings(inp.channelId, inp.deviceId, inp.tags, groups)
  }

  /** The instant a field of the item counts for: its own, else the request's, else the server's. */
  function InstantOf(inp: Input, f: string, now: int): int {
    if f in inp.stamps && inp.stamps[f].Some? then inp.stamps[f].value
    else if inp.timestamp.Some? then inp.timestamp.value
    else now
  }

  /** What is published of an item: each reading has its names and tags, and one or more of its fields with their
      values and at their instant. */
  lemma ReadingOfItem(readings: seq<Reading>, inp: Input, now: int, i: nat)
    requires IsItem(readings, inp, now) && i < |readings|
    ensures var r := readings[i];
      r.channelId == inp.channelId && r.deviceId == inp.deviceId && r.tags == inp.tags && r.fields != map[]
    ensures var r := readings[i];
      forall f :: f in r.fields ==> f in inp.fields && r.fields[f] == inp.fields[f] && r.ts == InstantOf(inp, f, now)
  {
    var groups: seq<Group> :| IsSplit(groups, inp.fields, ClocksOf(inp, now))
                              && readings == AsReadings(inp.channelId, inp.deviceId, inp.tags, groups);
    assert groups[i].fields == FieldsAt(inp.fields, ClocksOf(inp, now), groups[i].ts);
  }

  /** Every field is in just one of the readings. */
  lemma FieldPublished(readings: seq<Reading>, inp: Input, now: int, f: string) returns (i: nat)
    requires IsItem(readings, inp, now) && f in inp.fields
    ensures i < |readings| && f in readings[i].fields
    ensures forall j :: 0 <= j < |readings| && f in readings[j].fields ==> j == i
  {
    var groups: seq<Group> :| IsSplit(groups, inp.fields, ClocksOf(inp, now))
                              && readings == AsReadings(inp.channelId, inp.deviceId, inp.tags, groups);
    i := GroupOfField(groups, inp.fields, ClocksOf(inp, now), f);
    forall j | 0 <= j < |readings| ensures readings[j].fields == groups[j].fields {
    }
  }

  /** One reading an instant. */
  lemma InstantsDiffer(readings: seq<Reading>, inp: Input, now: int, i: nat, j: nat)
    requires IsItem(readings, inp, now) && i < j < |readings|
    ensures readings[i].ts != readings[j].ts
  {
    var groups: seq<Group> :| IsSplit(groups, inp.fields, ClocksOf(inp, now))
                              && readings == AsReadings(inp.channelId, inp.deviceId, inp.tags, groups);
    assert groups[i].ts != groups[j].ts;
  }

  lemma GroupOfField(groups: seq<Group>, fields: Fields, c: Clocks, f: string) returns (i: nat)
    requires IsSplit(groups, fields, c) && f in fields
    ensures i < |groups| && f in groups[i].fields
    ensures forall j :: 0 <= j < |groups| && f in groups[j].fields ==> j == i
  {
    SplitPartitions(groups, fields, c, f);
    i :| 0 <= i < |groups| && f in groups[i].fields;
    forall j | 0 <= j < |groups| && f in groups[j].fields ensures j == i {
      assert groups[j].ts == c.Effective(f) == groups[i].ts;
    }
  }

  /** The readings of several items, one after the other. */
  ghost predicate IsBatch(batch: seq<Reading>, inputs: seq<Input>, now: int) {
    exists parts :: IsConcatenation(batch, parts, inputs, now)
  }

  ghost predicate IsConcatenation(batch: seq<Reading>, parts: seq<seq<Reading>>, inputs: seq<Input>, now: int) {
    && batch == Flatten(parts) && |parts| == |inputs|
    && forall k :: 0 <= k < |parts| ==> IsItem(parts[k], inputs[k], now)
  }

  lemma Concatenate(batch: seq<Reading>, parts: seq<seq<Reading>>, inputs: seq<Input>, i: nat, item: seq<Reading>,
                    now: int)
    requires i < |inputs| && IsConcatenation(batch, parts, inputs[..i], now) && IsItem(item, inputs[i], now)
    ensures IsConcatenation(batch + item, parts + [item], inputs[..i + 1], now)
  {
    FlattenSnoc(parts, item);
  }

  function ReplayFault(inp: Input, windowDays: int, now: int): Option<Fault> {
    if !ValidChannelId(inp.channelId) then Some(InvalidChannelId)
    else if inp.fields == map[] then Some(EmptyFields)
    else if inp.timestamp.Some? then ValidateReplayTimestamp(inp.timestamp.value, windowDays, now)
    else None
  }

  /** A replayed item is refused for a bad id, missing fields or a time outside the window, in that order. */
  lemma ReplayFaultMeans(inp: Input, windowDays: int, now: int)
    requires 0 <= windowDays <= 106_751
    ensures var fault := ReplayFault(inp, windowDays, now);
      && (fault == Some(InvalidChannelId) <==> !ValidChannelId(inp.channelId))
      && (fault == Some(EmptyFields) <==> ValidChannelId(inp.channelId) && inp.fields == map[])
      && (fault == None
          <==> && ValidChannelId(inp.channelId) && inp.fields != map[]
               && (inp.timestamp.Some? ==>
                     now - windowDays * 86_400_000_000_000 <= inp.timestamp.value <= now + 30_000_000_000))
      && (fault == Some(TimestampFuture)
          <==> && ValidChannelId(inp.channelId) && inp.fields != map[]
               && inp.timestamp.Some? && inp.timestamp.value > now + 30_000_000_000)
      && (fault.Some? ==> fault.value !in {TimestampTooOld, PublishFailed})
  {
    if inp.timestamp.Some? { ReplayAcceptance(inp.timestamp.value, windowDays, now); }
  }

  function ReplayReading(inp: Input, now: int): Reading {
    Reading(inp.channelId, inp.deviceId, inp.fields, inp.tags, if inp.timestamp.Some? then inp.timestamp.value else now)
  }

  function ReplayReadings(inputs: seq<Input>, now: int): (r: seq<Reading>)
    ensures |r| == |inputs| && forall i :: 0 <= i < |r| ==> r[i] == ReplayReading(inputs[i], now)
  {
    seq(|inputs|, i requires 0 <= i < |inputs| => ReplayReading(inputs[i], now))
  }

  /** A replayed item goes out as one reading, at the time sent with it, else at the server's. */
  lemma ReplayedAsSent(inputs: seq<Input>, now: int, i: nat)
    requires i < |inputs|
    ensures var r, inp := ReplayReadings(inputs, now)[i], inputs[i];
      && r.channelId == inp.channelId && r.deviceId == inp.deviceId && r.fields == inp.fields && r.tags == inp.tags
      && (inp.timestamp == Some(r.ts) || (inp.timestamp == None && r.ts == now))
  {
  }

  function Entries(batch: seq<Reading>, now: int): (e: seq<DlqEntry>)
    ensures |e| == |batch|
    ensures forall i :: 0 <= i < |e| ==>
      e[i] == DlqEntry(batch[i].channelId, batch[i].deviceId, batch[i].ts, batch[i].fields, now)
  {
    seq(|batch|, i requires 0 <= i < |batch| =>
      DlqEntry(batch[i].channelId, batch[i].deviceId, batch[i].ts, batch[i].fields, now))
  }

  function Shift(n: nat): nat { if n == 0 then 1 else 2 * Shift(n - 1) }

  class IngestService {
    const maxReadingAge: int
    var published: seq<seq<Reading>>  // batches handed to PublishReadings
    var replayed: seq<seq<Reading>>   // batches handed to PublishReplayReadings
    var slept: nat                    // milliseconds
    var dlq: seq<DlqEntry>
    var failures: nat

    constructor (maxReadingAge: int)
      ensures this.maxReadingAge == maxReadingAge
      ensures published == [] && replayed == [] && slept == 0 && dlq == [] && failures == 0
    {
      this.maxReadingAge := maxReadingAge;
      published, replayed, slept, dlq, failures := [], [], 0, [], 0;
    }

    /** The checks and the grouping of one item. */
    method Prepare(inp: Input, now: int) returns (r: Result<seq<Reading>, Fault>)
      ensures r.Ok? <==> Accepted(inp, maxReadingAge, now)
      ensures r.Ok? ==> IsItem(r.value, inp, now)
      ensures r.Err? ==> Faulty(inp, maxReadingAge, now, r.error)
    {
      if !ValidChannelId(inp.channelId) { return Err(InvalidChannelId); }
      if |inp.fields| == 0 { return Err(EmptyFields); }
      var defaultTS := now;
      if inp.timestamp.Some? {
        var fault := ValidateTimestamp(inp.timestamp.value, maxReadingAge, now);
        if fault.Some? { return Err(fault.value); }
        defaultTS := inp.timestamp.value;
      }
      var g := GroupByTimestamp(inp.channelId, inp.deviceId, inp.fields, Clocks(inp.stamps, defaultTS), inp.tags,
                                maxReadingAge, now);
      match g
      case Ok(readings) => return Ok(readings);
      case Err(e) => return Err(e.1);
    }

    method Ingest(inp: Input, now: int, publishOk: bool) returns (failure: Option<Fault>)
      modifies this`published
      ensures !Accepted(inp, maxReadingAge, now) ==>
        published == old(published) && failure.Some? && Faulty(inp, maxReadingAge, now, failure.value)
      ensures Accepted(inp, maxReadingAge, now) ==>
        && (failure == if publishOk then None else Some(PublishFailed))
        && exists readings :: IsItem(readings, inp, now) && published == old(published) + [readings]
    {
      var r := Prepare(inp, now);
      if r.Err? { return Some(r.error); }
      published := published + [r.value];
      return if publishOk then None else Some(PublishFailed);
    }

    /** All or nothing: the first bad item stops everything, otherwise one batch goes out. */
    method IngestBatch(inputs: seq<Input>, now: int, publishOk: bool) returns (failure: Option<Failure>)
      modifies this`published
      ensures inputs == [] ==> failure == None && published == old(published)
      ensures var k := FirstBad(inputs, 0, maxReadingAge, now);
        && (k < |inputs| ==>
              && published == old(published)
              && failure.Some? && failure.value.ItemFault? && failure.value.item == k
              && Faulty(inputs[k], maxReadingAge, now, failure.value.fault))
        && (k == |inputs| > 0 ==>
              && failure == (if publishOk then None else Some(PublishFault))
              && exists batch :: IsBatch(batch, inputs, now) && published == old(published) + [batch])
    {
      if |inputs| == 0 { return None; }
      var r := PrepareAll(inputs, now);
      if r.Err? { return Some(ItemFault(r.error.0, r.error.1)); }
      published := published + [r.value];
      return if publishOk then None else Some(PublishFault);
    }

    /** The loop over the items: their readings one after the other, or the first fault. */
    method PrepareAll(inputs: seq<Input>, now: int) returns (r: Result<seq<Reading>, (nat, Fault)>)
      ensures var k := FirstBad(inputs, 0, maxReadingAge, now);
        && (r.Ok? <==> k == |inputs|)
        && (r.Ok? ==> IsBatch(r.value, inputs, now))
        && (r.Err? ==> r.error.0 == k < |inputs| && Faulty(inputs[k], maxReadingAge, now, r.error.1))
    {
      var batch: seq<Reading> := [];
      ghost var parts: seq<seq<Reading>> := [];
      for i := 0 to |inputs|
        invariant FirstBad(inputs, 0, maxReadingAge, now) == FirstBad(inputs, i, maxReadingAge, now)
        invariant IsConcatenation(batch, parts, inputs[..i], now)
      {
        var p := Prepare(inputs[i], now);
        if p.Err? { return Err((i, p.error)); }
        Concatenate(batch, parts, inputs, i, p.value, now);
        batch := batch + p.value;
        parts := parts + [p.value];
      }
      assert inputs[..|inputs|] == inputs;
      assert IsConcatenation(batch, parts, inputs, now);
      return Ok(batch);
    }

    /** At most three attempts; only if all fail is every reading written to the dead-letter queue. */
    method IngestReplay(inputs: seq<Input>, windowDays: int, now: int, outcomes: nat -> bool)
      returns (failure: Option<Failure>)
      modifies this`replayed, this`slept, this`dlq, this`failures
      ensures inputs == [] ==> failure == None
      ensures inputs == [] || (failure.Some? && failure.value.ItemFault?) ==>
        unchanged(`replayed) && unchanged(`slept) && unchanged(`dlq) && unchanged(`failures)
      ensures (failure.Some? && failure.value.ItemFault?)
        <==> exists k :: 0 <= k < |inputs| && ReplayFault(inputs[k], windowDays, now).Some?
      ensures failure.Some? && failure.value.ItemFault? ==> var k := failure.value.item;
        && k < |inputs| && ReplayFault(inputs[k], windowDays, now) == Some(failure.value.fault)
        && forall j :: 0 <= j < k ==> ReplayFault(inputs[j], windowDays, now).None?
      ensures inputs != [] && (forall k :: 0 <= k < |inputs| ==> ReplayFault(inputs[k], windowDays, now).None?) ==>
        var batch := ReplayReadings(inputs, now);
        var first := if outcomes(0) then 0 else if outcomes(1) then 1 else 2;
        && replayed == old(replayed) + seq(first + 1, _ => batch)
        && slept == old(slept) + [0, 100, 300][first]
        && (failure == if outcomes(first) then None else Some(PublishFault))
        && dlq == old(dlq) + (if outcomes(first) then [] else Entries(batch, now))
        && failures == old(failures) + (if outcomes(first) then 0 else 1)
    {
      if |inputs| == 0 { return None; }
      var r := PrepareReplay(inputs, windowDays, now);
      if r.Err? { return Some(ItemFault(r.error.0, r.error.1)); }
      var sent := Retry(r.value, outcomes);
      if sent { return None; }
      WriteOff(r.value, now);
      return Some(PublishFault);
    }

    /** The loop over the replayed items: one reading each, or the first fault. */
    method PrepareReplay(inputs: seq<Input>, windowDays: int, now: int) returns (r: Result<seq<Reading>, (nat, Fault)>)
      ensures r.Ok? ==>
        && (forall k :: 0 <= k < |inputs| ==> ReplayFault(inputs[k], windowDays, now).None?)
        && r.value == ReplayReadings(inputs, now)
      ensures r.Err? ==> var (k, fault) := r.error;
        && k < |inputs| && ReplayFault(inputs[k], windowDays, now) == Some(fault)
        && forall j :: 0 <= j < k ==> ReplayFault(inputs[j], windowDays, now).None?
    {
      var batch: seq<Reading> := [];
      for i := 0 to |inputs|
        invariant forall j :: 0 <= j < i ==> ReplayFault(inputs[j], windowDays, now).None?
        invariant batch == ReplayReadings(inputs[..i], now)
      {
        var reading := ReplayItem(inputs[i], windowDays, now);
        if reading.Err? { return Err((i, reading.error)); }
        batch := batch + [reading.value];
      }
      assert inputs[..|inputs|] == inputs;
      return Ok(batch);
    }

    method ReplayItem(inp: Input, windowDays: int, now: int) returns (r: Result<Reading, Fault>)
      ensures match ReplayFault(inp, windowDays, now)
              case Some(fault) => r == Err(fault)
              case None => r == Ok(ReplayReading(inp, now))
    {
      if !ValidChannelId(inp.channelId) { return Err(InvalidChannelId); }
      if |inp.fields| == 0 { return Err(EmptyFields); }
      var ts := now;
      if inp.timestamp.Some? {
        var fault := ValidateReplayTimestamp(inp.timestamp.value, windowDays, now);
        if fault.Some? { return Err(fault.value); }
        ts := inp.timestamp.value;
      }
      return Ok(Reading(inp.channelId, inp.deviceId, inp.fields, inp.tags, ts));
    }

    /** The retry loop: stops at the first success. */
    method Retry(batch: seq<Reading>, outcomes: nat -> bool) returns (sent: bool)
      modifies this`replayed, this`slept
      ensures var first := if outcomes(0) then 0 else if outcomes(1) then 1 else 2;
        && replayed == old(replayed) + seq(first + 1, _ => batch)
        && slept == old(slept) + [0, 100, 300][first]
        && sent == outcomes(first)
    {
      for attempt := 0 to 3
        invariant forall j :: 0 <= j < attempt ==> !outcomes(j)
        invariant replayed == old(replayed) + seq(attempt, _ => batch)
        invariant slept == old(slept) + [0, 0, 100, 300][attempt]
      {
        if attempt > 0 {
          assert Shift(0) == 1 && Shift(1) == 2;
          slept := slept + 100 * Shift(attempt - 1);
        }
        replayed := replayed + [batch];
        if outcomes(attempt) { return true; }
      }
      return false;
    }

    /** Every reading of the batch is pushed once, in order, whether or not a push succeeds. */
    method WriteOff(batch: seq<Reading>, now: int)
      modifies this`dlq, this`failures
      ensures dlq == old(dlq) + Entries(batch, now) && failures == old(failures) + 1
    {
      for i := 0 to |batch|
        invariant dlq == old(dlq) + Entries(batch, now)[..i]
        invariant failures == old(failures)
      {
        var r := batch[i];
        dlq := dlq + [DlqEntry(r.channelId, r.deviceId, r.ts, r.fields, now)];
      }
      failures := failures + 1;
    }
  }

  // ---- nothing is lost between the request and the batch ----

  function FieldTotal(readings: seq<Reading>): nat {
    if readings == [] then 0 else FieldTotal(readings[..|readings| - 1]) + |readings[|readings| - 1].fields|
  }

  function InputTotal(inputs: seq<Input>): nat {
    if inputs == [] then 0 else |inputs[0].fields| + InputTotal(inputs[1..])
  }

  lemma {:induction false} FieldTotalAppend(a: seq<Reading>, b: seq<Reading>)
    ensures FieldTotal(a + b) == FieldTotal(a) + FieldTotal(b)
  {
    if b == [] {
      assert a + b == a;
    } else {
      var n := |b| - 1;
      FieldTotalAppend(a, b[..n]);
      assert (a + b)[..|a + b| - 1] == a + b[..n];
    }
  }

  function GroupTotal(groups: seq<Group>): nat {
    if groups == [] then 0 else |groups[0].fields| + GroupTotal(groups[1..])
  }

  lemma {:induction false} GroupTotalIsFieldTotal(groups: seq<Group>, ch: string, dev: string,
                                                  tags: map<string, string>)
    ensures FieldTotal(AsReadings(ch, dev, tags, groups)) == GroupTotal(groups)
  {
    var r := AsReadings(ch, dev, tags, groups);
    if groups != [] {
      GroupTotalIsFieldTotal(groups[1..], ch, dev, tags);
      assert r == [r[0]] + AsReadings(ch, dev, tags, groups[1..]);
      FieldTotalAppend([r[0]], r[1..]);
      assert [r[0]][..0] == [];
    }
  }

  lemma {:induction false} SplitTotal(groups: seq<Group>, fields: Fields, c: Clocks)
    requires IsSplit(groups, fields, c)
    ensures GroupTotal(groups) == |fields|
    decreases |groups|
  {
    if groups == [] {
      assert forall f :: f !in fields;
      assert fields == map[];
    } else {
      SplitWithout(groups, fields, c);
      SplitTotal(groups[1..], fields - groups[0].fields.Keys, c);
      WithoutKeys(fields, groups[0].fields.Keys);
      assert |groups[0].fields| == |groups[0].fields.Keys|;
    }
  }

  lemma OthersUnchanged(fields: Fields, c: Clocks, gone: int, ts: int)
    requires ts != gone
    ensures FieldsAt(fields - FieldsAt(fields, c, gone).Keys, c, ts) == FieldsAt(fields, c, ts)
  {
  }

  lemma SplitWithout(groups: seq<Group>, fields: Fields, c: Clocks)
    requires IsSplit(groups, fields, c) && groups != []
    ensures IsSplit(groups[1..], fields - groups[0].fields.Keys, c)
  {
    var rest, tail := fields - groups[0].fields.Keys, groups[1..];
    forall i | 0 <= i < |tail| ensures tail[i].fields == FieldsAt(rest, c, tail[i].ts) && tail[i].fields != map[] {
      OthersUnchanged(fields, c, groups[0].ts, groups[i + 1].ts);
    }
    forall f | f in rest ensures exists i :: 0 <= i < |tail| && tail[i].ts == c.Effective(f) {
      var i :| 0 <= i < |groups| && groups[i].ts == c.Effective(f);
      assert i > 0;
      assert tail[i - 1] == groups[i];
    }
  }

  /** A published batch holds as many field values as its items did. */
  lemma {:induction false} BatchTotal(batch: seq<Reading>, parts: seq<seq<Reading>>, inputs: seq<Input>, now: int)
    requires IsConcatenation(batch, parts, inputs, now)
    ensures FieldTotal(batch) == InputTotal(inputs)
    decreases |parts|
  {
    if parts != [] {
      var groups :| IsSplit(groups, inputs[0].fields, ClocksOf(inputs[0], now))
                    && parts[0] == AsReadings(inputs[0].channelId, inputs[0].deviceId, inputs[0].tags, groups);
      SplitTotal(groups, inputs[0].fields, ClocksOf(inputs[0], now));
      GroupTotalIsFieldTotal(groups, inputs[0].channelId, inputs[0].deviceId, inputs[0].tags);
      BatchTotal(Flatten(parts[1..]), parts[1..], inputs[1..], now);
      FieldTotalAppend(parts[0], Flatten(parts[1..]));
    }
  }
}
