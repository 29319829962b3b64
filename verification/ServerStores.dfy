/** From payload to published readings: handler.go's compact path, with ingest_service.go behind it. */
module ServerStores {
  import opened Prelude
  import opened BatchSpec
  import opened BatchTheorems
  import opened ServerDecode
  import opened ServerTheorems
  import IngestDomain
  import Ingest
  import GoTime

  /** What a request brings besides its payload: when the server decodes and when it checks it, how old a reading may
      be, and whose it is. */
  datatype Request = Request(now: int, later: int, maxAge: int, channelId: string, deviceId: string)

  function AsInput(v: Input, req: Request): Ingest.Input {
    Ingest.Input(req.channelId, req.deviceId, v.fields, map n | n in v.stamps :: Some(v.stamps[n]), map[], None)
  }

  ghost predicate Accepts(v: Input, req: Request) {
    Ingest.Accepted(AsInput(v, req), req.maxAge, req.later)
  }

  /** The readings are those the service publishes for the decoded input, in whatever order. */
  ghost predicate Publishes(batch: seq<IngestDomain.Reading>, v: Result<Input, DecodeError>, req: Request) {
    v.Ok? && Accepts(v.value, req) && Ingest.IsItem(batch, AsInput(v.value, req), req.later)
  }

  /** `ingestCompact`: decodes the payload and hands it to the service, which publishes one batch or nothing. */
  method IngestCompact(svc: Ingest.IngestService, p: Payload, schema: seq<Entry>, version: nat, req: Request,
                       publishOk: bool)
    returns (ok: bool)
    requires svc.maxReadingAge == req.maxAge
    modifies svc`published
    ensures var v := View(p, schema, version, req.now);
      if v.Ok? && Accepts(v.value, req) then
        ok == publishOk && exists batch :: Publishes(batch, v, req) && svc.published == old(svc.published) + [batch]
      else !ok && svc.published == old(svc.published)
    ensures p.sv != 0 && version != 0 && p.sv != version ==> !ok && svc.published == old(svc.published)
  {
    var v := Deserialize(p, schema, version, req.now);
    VersionChecked(p, schema, version, req.now);
    if v.Err? { return false; }
    var inputs := [AsInput(v.value, req)];
    var failure := svc.IngestBatch(inputs, req.later, publishOk);
    if failure.None? || failure.value.PublishFault? {
      forall batch | Ingest.IsBatch(batch, inputs, req.later) ensures Publishes(batch, v, req) {
        var parts :| Ingest.IsConcatenation(batch, parts, inputs, req.later);
        assert batch == parts[0] + Flatten(parts[1..]) == parts[0];
      }
    }
    return failure.None?;
  }

  /** Whatever the two schemas are, no batch built for one version is published under another. */
  lemma OtherVersionUnpublished(rs: seq<Reading>, names: seq<string>, sv: nat, k: nat, schema: seq<Entry>,
                                version: nat, req: Request, batch: seq<IngestDomain.Reading>)
    requires Batches(rs, names, sv).Ok? && k < |Batches(rs, names, sv).value|
    requires sv != 0 && version != 0 && sv != version
    ensures var v := View(Batches(rs, names, sv).value[k], schema, version, req.now);
      v == Err(SchemaMismatch(version)) && !Publishes(batch, v, req)
  {
    BatchesDeliver(rs, names, sv);
    VersionChecked(Batches(rs, names, sv).value[k], schema, version, req.now);
  }

  // ---- what is accepted ----

  /** The time is at most 30 seconds ahead of the check, and not too old for it. */
  predicate Timely(ts: int, req: Request) {
    ts <= req.later + 30 * GoTime.SECOND && (req.maxAge > 0 ==> req.later - req.maxAge <= ts)
  }

  lemma StampChecked(v: Input, names: seq<string>, ts: seq<int>, req: Request, q: nat)
    requires |ts| == |names| && Distinct(names) && q < |ts| && v.stamps == Zip(names, ts)
    ensures Ingest.ClocksOf(AsInput(v, req), req.later).Check(req.maxAge, req.later, names[q]).None?
       <==> Timely(ts[q], req)
  {
    ZipAt(names, ts, q);
    assert AsInput(v, req).stamps[names[q]] == Some(ts[q]);
  }

  lemma AcceptedWhenTimely(names: seq<string>, vals: seq<Float64>, ts: seq<int>, req: Request)
    requires |names| == |vals| == |ts| > 0 && Distinct(names)
    ensures Accepts(Input(Zip(names, vals), Zip(names, ts)), req)
       <==> IngestDomain.ValidChannelId(req.channelId) && forall q :: 0 <= q < |ts| ==> Timely(ts[q], req)
  {
    var v := Input(Zip(names, vals), Zip(names, ts));
    var c := Ingest.ClocksOf(AsInput(v, req), req.later);
    assert names[0] in v.fields;
    if Accepts(v, req) {
      forall q | 0 <= q < |ts| ensures Timely(ts[q], req) {
        assert names[q] in v.fields;
        StampChecked(v, names, ts, req, q);
      }
    } else if forall q :: 0 <= q < |ts| ==> Timely(ts[q], req) {
      forall n | n in v.fields ensures c.Check(req.maxAge, req.later, n).None? {
        var q :| 0 <= q < |names| && names[q] == n;
        StampChecked(v, names, ts, req, q);
      }
    }
  }

  /** The time an offset stands for. */
  function Stamp(req: Request, td: nat): int { req.now + td * GoTime.MILLISECOND }

  ghost predicate OffsetsTimely(p: Payload, req: Request) {
    forall q :: 0 <= q < |p.td| ==> Timely(Stamp(req, p.td[q]), req)
  }

  /** A payload the server can read is accepted exactly when each offset, counted from its own clock, is a time the
      check allows; if the check comes soon, the offset is within 30 seconds and the delay until the check. One offset
      beyond that has the whole payload refused. */
  lemma AcceptedWithinSkew(p: Payload, schema: seq<Entry>, version: nat, req: Request)
    requires Registered(schema) && View(p, schema, version, req.now).Ok?
    ensures Accepts(View(p, schema, version, req.now).value, req)
       <==> && IngestDomain.ValidChannelId(req.channelId)
            && (if p.td == [] then Timely(req.now, req) else OffsetsTimely(p, req))
    ensures 0 <= req.later - req.now && (req.maxAge > 0 ==> req.later - req.now <= req.maxAge) ==>
      (Accepts(View(p, schema, version, req.now).value, req)
       <==> && IngestDomain.ValidChannelId(req.channelId)
            && forall q :: 0 <= q < |p.td| ==>
                 p.td[q] * GoTime.MILLISECOND <= 30 * GoTime.SECOND + (req.later - req.now))
  {
    var k := ReadNames(p, schema, version, req.now);
    AcceptedWhenTimely(LeadingNames(schema, k), Leading(p.f, k), Times(req.now, p.td, k), req);
    TimesTimely(p.td, k, req);
    if 0 <= req.later - req.now && (req.maxAge > 0 ==> req.later - req.now <= req.maxAge) {
      SoonTimely(p.td, req);
    }
  }

  /** Without offsets the one time is the server's. */
  lemma TimesTimely(td: seq<nat>, k: nat, req: Request)
    requires k > 0 && (td == [] || |td| == k)
    ensures (forall q :: 0 <= q < k ==> Timely(Times(req.now, td, k)[q], req))
       <==> if td == [] then Timely(req.now, req) else forall q :: 0 <= q < |td| ==> Timely(Stamp(req, td[q]), req)
  {
    var ts := Times(req.now, td, k);
    if td == [] {
      assert ts[0] == req.now;
    } else {
      assert forall q :: 0 <= q < k ==> ts[q] == Stamp(req, td[q]);
    }
  }

  /** If the check comes soon, only the bound ahead matters. */
  lemma SoonTimely(td: seq<nat>, req: Request)
    requires 0 <= req.later - req.now && (req.maxAge > 0 ==> req.later - req.now <= req.maxAge)
    ensures Timely(req.now, req)
    ensures forall q :: 0 <= q < |td| ==>
      (Timely(Stamp(req, td[q]), req)
       <==> td[q] * GoTime.MILLISECOND <= 30 * GoTime.SECOND + (req.later - req.now))
  {
  }

  /** Each field's last reading is at an offset that the check allows. */
  ghost predicate AllTimely(run: seq<Reading>, names: seq<string>, req: Request)
    requires run != []
  {
    forall i :: 0 <= i < |run| && IsLast(run, names, i) ==> Timely(Stamp(req, Offset(run[0].ts, run[i].ts)), req)
  }

  lemma SentTimely(p: Payload, run: seq<Reading>, names: seq<string>, req: Request)
    requires run != [] && AllKnown(run, names) && Sends(p, run, names)
    ensures OffsetsTimely(p, req) <==> AllTimely(run, names, req)
  {
    if OffsetsTimely(p, req) {
      forall i | 0 <= i < |run| && IsLast(run, names, i) ensures Timely(Stamp(req, Offset(run[0].ts, run[i].ts)), req) {
        OffsetIs(p.td[Place(run, names, i)], run[0].ts, run[i].ts);
      }
    } else {
      var q :| 0 <= q < |p.td| && !Timely(Stamp(req, p.td[q]), req);
      var i := OffsetOfLast(p, run, names, q);
    }
  }

  /** For a run: one field whose last reading is too far from the base costs the whole payload. */
  lemma {:induction false} RunAccepted(run: seq<Reading>, schema: seq<Entry>, sv: nat, req: Request)
    requires run != [] && AllKnown(run, Names(schema)) && Registered(schema)
    requires View(PayloadOf(run, Names(schema), sv), schema, sv, req.now).Ok?
    ensures Accepts(View(PayloadOf(run, Names(schema), sv), schema, sv, req.now).value, req)
       <==> IngestDomain.ValidChannelId(req.channelId) && AllTimely(run, Names(schema), req)
  {
    var p := PayloadOf(run, Names(schema), sv);
    PayloadSends(run, Names(schema), sv);
    AcceptedWithinSkew(p, schema, sv, req);
    SentTimely(p, run, Names(schema), req);
  }

  // ---- what is stored ----

  /** The reading has the field, with the recorded value and at the recorded time to the millisecond. */
  predicate Records(r: IngestDomain.Reading, rec: Reading) {
    rec.field in r.fields && r.fields[rec.field] == rec.value && r.ts <= rec.ts < r.ts + GoTime.MILLISECOND
  }

  /** Every reading is the sender's, without tags, and no two share a field. */
  ghost predicate Separate(batch: seq<IngestDomain.Reading>, req: Request) {
    && (forall g :: 0 <= g < |batch| ==>
          batch[g].channelId == req.channelId && batch[g].deviceId == req.deviceId && batch[g].tags == map[])
    && forall g, g' :: 0 <= g < g' < |batch| ==> batch[g].fields.Keys !! batch[g'].fields.Keys
  }

  predicate Within(batch: seq<IngestDomain.Reading>, fields: set<string>) {
    forall g, n :: 0 <= g < |batch| && n in batch[g].fields ==> n in fields
  }

  /** Some reading records the recorded one. */
  ghost predicate RecordedIn(batch: seq<IngestDomain.Reading>, rec: Reading) {
    exists g :: 0 <= g < |batch| && Records(batch[g], rec)
  }

  /** The published readings are the sender's, hold each field of the run once and no other, and record each field's
      last reading. */
  ghost predicate StoredAsRecorded(batch: seq<IngestDomain.Reading>, run: seq<Reading>, names: seq<string>,
                                   req: Request)
  {
    && Separate(batch, req) && Within(batch, FieldsOf(run))
    && forall i :: 0 <= i < |run| && IsLast(run, names, i) ==> RecordedIn(batch, run[i])
  }

  /** If a published reading holds the field, the input does, with that value and at that time. */
  ghost predicate FaithfulAt(batch: seq<IngestDomain.Reading>, v: Input, n: string) {
    forall g :: 0 <= g < |batch| && n in batch[g].fields ==>
      n in v.fields && n in v.stamps && batch[g].fields[n] == v.fields[n] && batch[g].ts == v.stamps[n]
  }

  ghost predicate HeldIn(batch: seq<IngestDomain.Reading>, n: string) {
    exists g :: 0 <= g < |batch| && n in batch[g].fields
  }

  /** The published readings hold each field of the input once, with its value and at its time. */
  ghost predicate HoldsOnce(batch: seq<IngestDomain.Reading>, v: Input, req: Request) {
    Separate(batch, req) && forall n :: FaithfulAt(batch, v, n) && (n in v.fields ==> HeldIn(batch, n))
  }

  lemma EffectiveIsStamp(v: Input, req: Request, n: string)
    requires n in v.stamps
    ensures Ingest.ClocksOf(AsInput(v, req), req.later).Effective(n) == v.stamps[n]
  {
    assert AsInput(v, req).stamps[n] == Some(v.stamps[n]);
  }

  lemma GroupHolds(groups: seq<Ingest.Group>, v: Input, req: Request, n: string)
    requires v.fields.Keys == v.stamps.Keys
    requires Ingest.IsSplit(groups, v.fields, Ingest.ClocksOf(AsInput(v, req), req.later))
    ensures n in v.fields ==> exists g :: 0 <= g < |groups| && n in groups[g].fields
    ensures forall g :: 0 <= g < |groups| && n in groups[g].fields ==>
      n in v.fields && n in v.stamps && groups[g].fields[n] == v.fields[n] && groups[g].ts == v.stamps[n]
  {
    Ingest.SplitPartitions(groups, v.fields, Ingest.ClocksOf(AsInput(v, req), req.later), n);
    if n in v.fields {
      assert n in v.stamps.Keys;
      EffectiveIsStamp(v, req, n);
    }
  }

  /** The readings are the groups, with the sender's names. */
  ghost predicate Mirrors(batch: seq<IngestDomain.Reading>, groups: seq<Ingest.Group>, req: Request) {
    && |batch| == |groups|
    && forall g :: 0 <= g < |batch| ==>
         && batch[g].channelId == req.channelId && batch[g].deviceId == req.deviceId && batch[g].tags == map[]
         && batch[g].fields == groups[g].fields && batch[g].ts == groups[g].ts
  }

  lemma GroupsDisjoint(groups: seq<Ingest.Group>, v: Input, req: Request)
    requires Ingest.IsSplit(groups, v.fields, Ingest.ClocksOf(AsInput(v, req), req.later))
    ensures forall g, g' :: 0 <= g < g' < |groups| ==> groups[g].fields.Keys !! groups[g'].fields.Keys
  {
    Ingest.SplitPartitions(groups, v.fields, Ingest.ClocksOf(AsInput(v, req), req.later), "");
  }

  lemma MirrorField(batch: seq<IngestDomain.Reading>, groups: seq<Ingest.Group>, v: Input, req: Request, n: string)
    requires v.fields.Keys == v.stamps.Keys && Mirrors(batch, groups, req)
    requires Ingest.IsSplit(groups, v.fields, Ingest.ClocksOf(AsInput(v, req), req.later))
    ensures FaithfulAt(batch, v, n) && (n in v.fields ==> HeldIn(batch, n))
  {
    GroupHolds(groups, v, req, n);
    if n in v.fields {
      var g :| 0 <= g < |groups| && n in groups[g].fields;
      assert n in batch[g].fields;
    }
  }

  lemma MirrorHolds(batch: seq<IngestDomain.Reading>, groups: seq<Ingest.Group>, v: Input, req: Request)
    requires v.fields.Keys == v.stamps.Keys && Mirrors(batch, groups, req)
    requires Ingest.IsSplit(groups, v.fields, Ingest.ClocksOf(AsInput(v, req), req.later))
    ensures HoldsOnce(batch, v, req)
  {
    GroupsDisjoint(groups, v, req);
    forall n: string ensures FaithfulAt(batch, v, n) && (n in v.fields ==> HeldIn(batch, n)) {
      MirrorField(batch, groups, v, req, n);
    }
  }

  lemma PublishedHolds(batch: seq<IngestDomain.Reading>, v: Input, req: Request)
    requires v.fields.Keys == v.stamps.Keys && Ingest.IsItem(batch, AsInput(v, req), req.later)
    ensures HoldsOnce(batch, v, req)
  {
    var inp := AsInput(v, req);
    var groups: seq<Ingest.Group> :|
      Ingest.IsSplit(groups, inp.fields, Ingest.ClocksOf(inp, req.later))
      && batch == Ingest.AsReadings(inp.channelId, inp.deviceId, inp.tags, groups);
    MirrorHolds(batch, groups, v, req);
  }

  lemma RecordIsInput(batch: seq<IngestDomain.Reading>, v: Input, rec: Reading)
    requires FaithfulAt(batch, v, rec.field) && RecordedIn(batch, rec)
    ensures var n := rec.field;
      && n in v.fields && v.fields[n] == rec.value
      && n in v.stamps && v.stamps[n] <= rec.ts < v.stamps[n] + GoTime.MILLISECOND
  {
    var g :| 0 <= g < |batch| && Records(batch[g], rec);
  }

  lemma InputIsRecord(batch: seq<IngestDomain.Reading>, v: Input, rec: Reading)
    requires FaithfulAt(batch, v, rec.field) && HeldIn(batch, rec.field)
    requires rec.field in v.fields && v.fields[rec.field] == rec.value
    requires rec.field in v.stamps && v.stamps[rec.field] <= rec.ts < v.stamps[rec.field] + GoTime.MILLISECOND
    ensures RecordedIn(batch, rec)
  {
    var g :| 0 <= g < |batch| && rec.field in batch[g].fields;
    assert Records(batch[g], rec);
  }

  lemma HeldIsWithin(batch: seq<IngestDomain.Reading>, fields: set<string>, n: string)
    requires Within(batch, fields) && HeldIn(batch, n)
    ensures n in fields
  {
  }

  /** Publishing keeps what was decoded, no more and no less. */
  lemma StoredIfDecoded(batch: seq<IngestDomain.Reading>, v: Input, run: seq<Reading>, names: seq<string>, req: Request)
    requires v.fields.Keys == v.stamps.Keys && HoldsOnce(batch, v, req) && AllKnown(run, names)
    ensures StoredAsRecorded(batch, run, names, req) <==> DecodedAsRecorded(v, run, names)
  {
    if StoredAsRecorded(batch, run, names, req) { StoredThenDecoded(batch, v, run, names, req); }
    if DecodedAsRecorded(v, run, names) { DecodedThenStored(batch, v, run, names, req); }
  }

  lemma DecodedThenStored(batch: seq<IngestDomain.Reading>, v: Input, run: seq<Reading>, names: seq<string>,
                          req: Request)
    requires HoldsOnce(batch, v, req) && DecodedAsRecorded(v, run, names)
    ensures StoredAsRecorded(batch, run, names, req)
  {
    forall i | 0 <= i < |run| && IsLast(run, names, i) ensures RecordedIn(batch, run[i]) {
      assert run[i].field in v.fields.Keys && run[i].field in v.stamps.Keys;
      InputIsRecord(batch, v, run[i]);
    }
    forall g, n | 0 <= g < |batch| && n in batch[g].fields ensures n in FieldsOf(run) {
      assert FaithfulAt(batch, v, n);
      assert n in v.fields.Keys;
    }
  }

  lemma StoredField(batch: seq<IngestDomain.Reading>, v: Input, run: seq<Reading>, names: seq<string>, req: Request,
                    n: string)
    requires HoldsOnce(batch, v, req) && StoredAsRecorded(batch, run, names, req) && AllKnown(run, names)
    ensures n in v.fields <==> n in FieldsOf(run)
  {
    if n in v.fields {
      HeldIsWithin(batch, FieldsOf(run), n);
    } else if n in FieldsOf(run) {
      var i := LastOfField(run, names, n);
      RecordIsInput(batch, v, run[i]);
      assert false;
    }
  }

  lemma StoredThenDecoded(batch: seq<IngestDomain.Reading>, v: Input, run: seq<Reading>, names: seq<string>,
                          req: Request)
    requires v.fields.Keys == v.stamps.Keys && HoldsOnce(batch, v, req) && AllKnown(run, names)
    requires StoredAsRecorded(batch, run, names, req)
    ensures DecodedAsRecorded(v, run, names)
  {
    forall n ensures n in v.fields <==> n in FieldsOf(run) {
      StoredField(batch, v, run, names, req, n);
    }
    forall i | 0 <= i < |run| && IsLast(run, names, i)
      ensures run[i].field in v.fields && v.fields[run[i].field] == run[i].value
      ensures run[i].field in v.stamps
      ensures v.stamps[run[i].field] <= run[i].ts < v.stamps[run[i].field] + GoTime.MILLISECOND
    {
      RecordIsInput(batch, v, run[i]);
    }
  }

  lemma LastOfField(run: seq<Reading>, names: seq<string>, n: string) returns (i: nat)
    requires AllKnown(run, names) && n in FieldsOf(run)
    ensures i < |run| && run[i].field == n && IsLast(run, names, i)
  {
    var j :| 0 <= j < |run| && run[j].field == n;
    var p := Pos(names, n);
    assert Present(run, names, p);
    LastIsPresent(run, names, p);
    i := LastAt(run, names, p);
  }

  /** What must be the case for a run to be stored as it was recorded. */
  ghost predicate Storable(run: seq<Reading>, schema: seq<Entry>, req: Request)
    requires run != []
  {
    && IndexIsRank(run, schema) && ClockMatches(req.now, run, Names(schema))
    && IngestDomain.ValidChannelId(req.channelId) && AllTimely(run, Names(schema), req)
  }

  lemma KeepsDecoded(batch: seq<IngestDomain.Reading>, v: Input, run: seq<Reading>, names: seq<string>, req: Request)
    requires v.fields.Keys == v.stamps.Keys && AllKnown(run, names)
    requires Ingest.IsItem(batch, AsInput(v, req), req.later)
    ensures StoredAsRecorded(batch, run, names, req) <==> DecodedAsRecorded(v, run, names)
  {
    PublishedHolds(batch, v, req);
    StoredIfDecoded(batch, v, run, names, req);
  }

  /** What the service publishes for a payload is the run as recorded if and only if the run was storable. */
  lemma {:induction false} PublishedAsRecorded(run: seq<Reading>, schema: seq<Entry>, sv: nat, req: Request,
                            batch: seq<IngestDomain.Reading>)
    requires run != [] && AllKnown(run, Names(schema)) && Registered(schema)
    requires Publishes(batch, View(PayloadOf(run, Names(schema), sv), schema, sv, req.now), req)
    ensures StoredAsRecorded(batch, run, Names(schema), req) <==> Storable(run, schema, req)
  {
    DecodedExactly(run, schema, sv, req.now);
    RunAccepted(run, schema, sv, req);
    NothingElseRead(PayloadOf(run, Names(schema), sv), schema, sv, req.now);
    KeepsDecoded(batch, View(PayloadOf(run, Names(schema), sv), schema, sv, req.now).value, run, Names(schema), req);
  }

  lemma SomethingPublished(v: Input, req: Request) returns (batch: seq<IngestDomain.Reading>)
    requires Accepts(v, req)
    ensures Publishes(batch, Ok(v), req)
  {
    var inp := AsInput(v, req);
    var groups := Ingest.SplitExists(inp.fields, Ingest.ClocksOf(inp, req.later));
    batch := Ingest.AsReadings(inp.channelId, inp.deviceId, inp.tags, groups);
  }

  /** A run is stored as it was recorded exactly when each field with a reading has its rank as index, the server's
      clock still shows the base's time to the millisecond, the channel id is valid and the offsets pass the check. */
  lemma {:induction false} StoredExactly(run: seq<Reading>, schema: seq<Entry>, sv: nat, req: Request)
    requires run != [] && AllKnown(run, Names(schema)) && Registered(schema)
    ensures var v := View(PayloadOf(run, Names(schema), sv), schema, sv, req.now);
      (exists batch :: Publishes(batch, v, req) && StoredAsRecorded(batch, run, Names(schema), req))
      <==> Storable(run, schema, req)
  {
    var v := View(PayloadOf(run, Names(schema), sv), schema, sv, req.now);
    if batch :| Publishes(batch, v, req) && StoredAsRecorded(batch, run, Names(schema), req) {
      PublishedAsRecorded(run, schema, sv, req, batch);
    }
    if Storable(run, schema, req) {
      DecodedExactly(run, schema, sv, req.now);
      RunAccepted(run, schema, sv, req);
      var batch := SomethingPublished(v.value, req);
      PublishedAsRecorded(run, schema, sv, req, batch);
    }
  }

  // ---- read as recorded, but refused ----

  /** Readings of both fields of a two-field schema, 31 seconds apart. */
  ghost predicate FarApart(rs: seq<Reading>, schema: seq<Entry>) {
    && schema == [Entry(1, "temperature"), Entry(2, "humidity")]
    && |rs| == 2 && rs[0].field == "temperature" && rs[1].field == "humidity"
    && rs[1].ts - rs[0].ts == 31 * GoTime.SECOND
  }

  lemma FarApartFields(rs: seq<Reading>, schema: seq<Entry>)
    requires FarApart(rs, schema)
    ensures Registered(schema) && AllKnown(rs, Names(schema)) && IndexIsRank(rs, schema) && IsLast(rs, Names(schema), 1)
  {
    var names := Names(schema);
    assert names[0] == "temperature" && names[1] == "humidity";
    assert Pos(names, rs[0].field) == 0 && Pos(names, rs[1].field) == 1;
    assert Present(rs, names, 0) && Present(rs, names, 1);
    RankOfLeading(rs, names, 0);
    RankOfLeading(rs, names, 1);
  }

  lemma OnePayload(rs: seq<Reading>, names: seq<string>, sv: nat)
    requires |rs| == 2 && AllKnown(rs, names) && Fits(rs[0].ts, rs[1].ts)
    ensures Batches(rs, names, sv) == Ok([PayloadOf(rs, names, sv)])
  {
    assert RunEnd(rs, 0, 1) == 2 && rs[0..2] == rs;
    assert Runs(rs, 0) == [rs];
    assert PayloadsOf([rs], names, sv) == [PayloadOf(rs, names, sv)];
  }

  /** Such readings fit one payload. It is read as recorded if it comes at once, but unless the check comes a second
      later it is refused: nothing is stored. */
  lemma {:induction false} FarApartRefused(rs: seq<Reading>, schema: seq<Entry>, sv: nat, req: Request)
    requires FarApart(rs, schema) && req.later - req.now < GoTime.SECOND
    ensures Batches(rs, Names(schema), sv) == Ok([PayloadOf(rs, Names(schema), sv)])
    ensures var v := View(PayloadOf(rs, Names(schema), sv), schema, sv, req.now);
      && v.Ok? && (req.now == rs[0].ts ==> DecodedAsRecorded(v.value, rs, Names(schema)))
      && !Accepts(v.value, req)
  {
    FarApartFields(rs, schema);
    FitsExactly(rs[0].ts, rs[1].ts);
    OnePayload(rs, Names(schema), sv);
    ServerReadsWhatWasMeant(rs, schema, sv, req.now);
    DecodedExactly(rs, schema, sv, req.now);
    RunAccepted(rs, schema, sv, req);
    OffsetIs(31_000, rs[0].ts, rs[1].ts);
  }
}
