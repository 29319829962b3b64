/** What the server reads from the SDK's payloads: which fields and times, and what it cannot read. */
module ServerTheorems {
  import opened Prelude
  import opened BatchSpec
  import opened BatchTheorems
  import opened ServerDecode
  import GoTime

  /** Of equal names the last one's value is kept. */
  lemma {:induction false} ZipLast<V>(names: seq<string>, vals: seq<V>, i: nat)
    requires |vals| == |names| && i < |names| && forall j :: i < j < |names| ==> names[j] != names[i]
    ensures names[i] in Zip(names, vals) && Zip(names, vals)[names[i]] == vals[i]
  {
    var k := |names|;
    if i < k - 1 { ZipLast(names[..k - 1], vals[..k - 1], i); }
  }

  lemma ZipAt<V>(names: seq<string>, vals: seq<V>, i: nat)
    requires |vals| == |names| && i < |names| && Distinct(names)
    ensures names[i] in Zip(names, vals) && Zip(names, vals)[names[i]] == vals[i]
  {
    ZipLast(names, vals, i);
  }

  /** Of equal indices the last one's name is found. */
  lemma {:induction false} NameIsLast(schema: seq<Entry>, p: nat)
    requires p < |schema| && forall q :: p < q < |schema| ==> schema[q].index != schema[p].index
    ensures NameAt(schema, schema[p].index) == Some(schema[p].name)
  {
    var k := |schema|;
    if p < k - 1 { NameIsLast(schema[..k - 1], p); }
  }

  // ---- any payload ----

  predicate HasIndex(schema: seq<Entry>, idx: nat) {
    exists p :: 0 <= p < |schema| && schema[p].index == idx
  }

  lemma NameIfIndex(schema: seq<Entry>, idx: nat)
    ensures NameAt(schema, idx).Some? <==> HasIndex(schema, idx)
  {
    if NameAt(schema, idx).Some? {
      var p :| 0 <= p < |schema| && schema[p] == Entry(idx, NameAt(schema, idx).value);
    }
  }

  /** A payload is refused for its schema version exactly when it and the server both name one and they differ. */
  lemma VersionChecked(p: Payload, schema: seq<Entry>, version: nat, now: int)
    ensures View(p, schema, version, now) == Err(EmptyFields) <==> p.f == []
    ensures p.f != [] ==>
      (View(p, schema, version, now) == Err(SchemaMismatch(version))
       <==> p.sv != 0 && version != 0 && p.sv != version)
  {
  }

  /** After that, the least of the leading indices that the schema lacks is reported, then a wrong number of offsets. */
  lemma IndicesChecked(p: Payload, schema: seq<Entry>, version: nat, now: int, idx: nat)
    requires p.f != [] && (p.sv == 0 || version == 0 || p.sv == version)
    ensures var v, k := View(p, schema, version, now), if |p.f| < 8 then |p.f| else 8;
      && (v == Err(UnknownFieldIndex(idx))
          <==> 1 <= idx <= k && !HasIndex(schema, idx) && forall i :: 1 <= i < idx ==> HasIndex(schema, i))
      && (v.Ok? <==> (forall i :: 1 <= i <= k ==> HasIndex(schema, i)) && (p.td == [] || |p.td| == k))
      && (v == Err(TDInvalid(|p.td|, k))
          <==> (forall i :: 1 <= i <= k ==> HasIndex(schema, i)) && p.td != [] && |p.td| != k)
  {
    forall i: nat ensures NameAt(schema, i).Some? <==> HasIndex(schema, i) {
      NameIfIndex(schema, i);
    }
    var k := Min(|p.f|, MAX_INDEX);
    if 1 <= idx <= k && !HasIndex(schema, idx) && forall i :: 1 <= i < idx ==> HasIndex(schema, i) {
      FirstGapIs(schema, k, idx);
    }
    if forall i :: 1 <= i <= k ==> HasIndex(schema, i) {
      FirstGapIs(schema, k, k + 1);
    }
  }

  /** What is read: the value and offset at place `i` go to the field with index `i + 1`. */
  lemma {:induction false} ReadByIndex(p: Payload, schema: seq<Entry>, version: nat, now: int, i: nat)
    returns (n: string)
    requires Registered(schema) && View(p, schema, version, now).Ok? && i < |p.f| < 256 && i < 8
    ensures Entry(i + 1, n) in schema
    ensures var v := View(p, schema, version, now).value;
      && n in v.fields && v.fields[n] == p.f[i]
      && n in v.stamps && v.stamps[n] == now + (if p.td == [] then 0 else p.td[i] * 1_000_000)
  {
    var k := ReadNames(p, schema, version, now);
    var lead := LeadingNames(schema, k);
    n := lead[i];
    PairedAt(p.f, p.td, now, k, lead, i);
  }

  lemma {:induction false} PairedAt(f: seq<Float64>, td: seq<nat>, now: int, k: nat, lead: seq<string>, i: nat)
    requires k <= Min(|f|, MAX_INDEX) && |f| < 256 && (td == [] || |td| == k)
    requires |lead| == k && Distinct(lead) && i < k
    ensures lead[i] in Zip(lead, Leading(f, k)) && Zip(lead, Leading(f, k))[lead[i]] == f[i]
    ensures lead[i] in Zip(lead, Times(now, td, k))
    ensures Zip(lead, Times(now, td, k))[lead[i]] == now + (if td == [] then 0 else td[i] * 1_000_000)
  {
    LeadingAt(f, k, i);
    ZipAt(lead, Leading(f, k), i);
    TimesAt(now, td, k, i);
    ZipAt(lead, Times(now, td, k), i);
  }

  lemma {:induction false} LeadingAt(f: seq<Float64>, k: nat, i: nat)
    requires k <= Min(|f|, MAX_INDEX) && |f| < 256 && i < k
    ensures Leading(f, k)[i] == f[i]
  {
  }

  lemma LeadingIs(f: seq<Float64>)
    requires |f| <= MAX_INDEX
    ensures Leading(f, |f|) == f
  {
    var vals := Leading(f, |f|);
    forall i | 0 <= i < |f| ensures vals[i] == f[i] {
      LeadingAt(f, |f|, i);
    }
  }

  lemma {:induction false} KnownOrGap(schema: seq<Entry>, k: nat)
    ensures FirstGap(schema, k) <= k <==> !KnownUpTo(schema, k)
  {
  }

  lemma {:induction false} TimesAt(now: int, td: seq<nat>, k: nat, i: nat)
    requires (td == [] || |td| == k) && i < k
    ensures Times(now, td, k)[i] == now + (if td == [] then 0 else td[i] * 1_000_000)
  {
  }

  lemma ReadNames(p: Payload, schema: seq<Entry>, version: nat, now: int) returns (k: nat)
    requires Registered(schema) && View(p, schema, version, now).Ok?
    ensures k == (if |p.f| < 8 then |p.f| else 8) && (p.td == [] || |p.td| == k)
    ensures KnownUpTo(schema, k) && Distinct(LeadingNames(schema, k))
    ensures forall i :: 0 <= i < k ==> Entry(i + 1, LeadingNames(schema, k)[i]) in schema
    ensures View(p, schema, version, now).value
         == Input(Zip(LeadingNames(schema, k), Leading(p.f, k)), Zip(LeadingNames(schema, k), Times(now, p.td, k)))
  {
    k := Min(|p.f|, MAX_INDEX);
    LeadingNamesDistinct(schema, k);
    forall i | 0 <= i < k ensures Entry(i + 1, LeadingNames(schema, k)[i]) in schema {
      assert NameAt(schema, i + 1) == Some(LeadingNames(schema, k)[i]);
    }
  }

  /** There is nothing else. */
  lemma NothingElseRead(p: Payload, schema: seq<Entry>, version: nat, now: int)
    requires Registered(schema) && View(p, schema, version, now).Ok?
    ensures var v := View(p, schema, version, now).value;
      v.fields.Keys == v.stamps.Keys && |v.fields| == if |p.f| < 8 then |p.f| else 8
  {
    var k := ReadNames(p, schema, version, now);
    ZipSize(LeadingNames(schema, k), Leading(p.f, k));
  }

  lemma {:induction false} ZipSize<V>(names: seq<string>, vals: seq<V>)
    requires |vals| == |names| && Distinct(names)
    ensures |Zip(names, vals)| == |names|
  {
    var k := |names|;
    if k > 0 {
      ZipSize(names[..k - 1], vals[..k - 1]);
      assert names[k - 1] !in names[..k - 1];
    }
  }

  /** The place is filed under the index, a byte. */
  predicate FiledAt(i: nat, idx: nat) { (i + 1) % 256 == idx }

  /** Of all values filed under an index the last one counts. */
  lemma {:induction false} ValueIsLast(f: seq<Float64>, idx: nat, i: nat)
    requires 0 < idx <= 8 && i < |f| && FiledAt(i, idx)
    requires forall j :: i < j < |f| ==> !FiledAt(j, idx)
    ensures ValueAt(f, idx) == Some(f[i])
  {
    if i < |f| - 1 {
      assert !FiledAt(|f| - 1, idx);
      ValueIsLast(f[..|f| - 1], idx, i);
    }
  }

  // ---- schemas with gaps ----

  lemma {:induction false} IndexAtLeast(schema: seq<Entry>, p: nat)
    requires Registered(schema) && p < |schema|
    ensures p + 1 <= schema[p].index
  {
    if p > 0 { IndexAtLeast(schema, p - 1); }
  }

  lemma NameOfEntry(schema: seq<Entry>, p: nat)
    requires Registered(schema) && p < |schema|
    ensures NameAt(schema, schema[p].index) == Some(schema[p].name)
  {
  }

  lemma NameOnce(schema: seq<Entry>, i: nat, j: nat)
    requires Registered(schema) && NameAt(schema, i).Some? && NameAt(schema, i) == NameAt(schema, j)
    ensures i == j
  {
    var n, names := NameAt(schema, i).value, Names(schema);
    var p :| 0 <= p < |schema| && schema[p] == Entry(i, n);
    var q :| 0 <= q < |schema| && schema[q] == Entry(j, n);
    assert names[p] == names[q];
  }

  lemma LeadingNamesDistinct(schema: seq<Entry>, k: nat)
    requires Registered(schema) && KnownUpTo(schema, k)
    ensures Distinct(LeadingNames(schema, k))
  {
    var lead := LeadingNames(schema, k);
    forall i, j | 0 <= i < j < k ensures lead[i] != lead[j] {
      if lead[i] == lead[j] { NameOnce(schema, i + 1, j + 1); }
    }
  }

  /** As positions only grow, all indices up to `k` are known only if the first `k` fields have them. */
  lemma {:induction false} NoGapUpTo(schema: seq<Entry>, k: nat)
    requires Registered(schema) && KnownUpTo(schema, k)
    ensures k <= |schema| && forall q :: 0 <= q < k ==> schema[q].index == q + 1
  {
    if k > 0 {
      NoGapUpTo(schema, k - 1);
      var p :| 0 <= p < |schema| && schema[p] == Entry(k, NameAt(schema, k).value);
      IndexAtLeast(schema, p);
    }
  }

  lemma LeadingNameIs(schema: seq<Entry>, k: nat, q: nat)
    requires Registered(schema) && KnownUpTo(schema, k) && q < k <= |schema| && schema[q].index == q + 1
    ensures LeadingNames(schema, k)[q] == Names(schema)[q]
  {
    NameOfEntry(schema, q);
  }

  lemma LeadingNamesAre(schema: seq<Entry>, k: nat)
    requires Registered(schema) && KnownUpTo(schema, k)
    ensures k <= |schema| && LeadingNames(schema, k) == Names(schema)[..k]
  {
    NoGapUpTo(schema, k);
    var lead, names := LeadingNames(schema, k), Names(schema);
    forall q | 0 <= q < k ensures lead[q] == names[q] {
      LeadingNameIs(schema, k, q);
    }
  }

  // ---- the SDK's payloads as the server reads them ----

  /** What the server gets from a payload for the names it looks up. */
  function Paired(p: Payload, lead: seq<string>, now: int): Input
    requires |p.f| == |p.td| == |lead|
  {
    Input(Zip(lead, p.f), Zip(lead, Times(now, p.td, |lead|)))
  }

  /** A payload with `r` values is read if the schema has the indices 1 to `r`, and refused otherwise. */
  lemma {:induction false} ViewOfPayload(p: Payload, schema: seq<Entry>, now: int, r: nat)
    requires Registered(schema) && |p.f| == |p.td| == r && 0 < r <= |schema|
    ensures r <= MAX_INDEX
    ensures View(p, schema, p.sv, now)
         == if KnownUpTo(schema, r) then Ok(Paired(p, LeadingNames(schema, r), now))
            else Err(UnknownFieldIndex(FirstGap(schema, r)))
  {
    IndexAtLeast(schema, |schema| - 1);
    LeadingIs(p.f);
    KnownOrGap(schema, r);
  }

  /** Each field with a reading has as its index its rank among those fields, counted from 1. */
  predicate IndexIsRank(run: seq<Reading>, schema: seq<Entry>) {
    forall p :: 0 <= p < |schema| && Present(run, Names(schema), p) ==>
      schema[p].index == Rank(run, Names(schema), p) + 1
  }

  function FieldsOf(run: seq<Reading>): set<string> {
    set i | 0 <= i < |run| :: run[i].field
  }

  /** What an offset in whole milliseconds leaves of the time since the base. */
  function Residue(base: int, ts: int): int {
    if ts <= base then ts - base else (ts - base) % GoTime.MILLISECOND
  }

  lemma OffsetAndResidue(base: int, ts: int)
    ensures Offset(base, ts) * GoTime.MILLISECOND + Residue(base, ts) == ts - base
  {
  }

  /** The input has exactly the run's fields, each with its last value, and a time that is off by the delay between
      the run's base and `now`, less what the offset leaves out. */
  ghost predicate CountsFrom(now: int, v: Input, run: seq<Reading>, names: seq<string>) {
    && v.fields.Keys == v.stamps.Keys == FieldsOf(run)
    && forall i :: 0 <= i < |run| && IsLast(run, names, i) ==>
         && v.fields[run[i].field] == run[i].value
         && v.stamps[run[i].field] - run[i].ts == now - run[0].ts - Residue(run[0].ts, run[i].ts)
  }

  /** The server finds each field with a reading under its rank. */
  predicate RankResolves(run: seq<Reading>, names: seq<string>, schema: seq<Entry>) {
    forall p :: 0 <= p < |names| && Present(run, names, p) ==>
      NameAt(schema, Rank(run, names, p) + 1) == Some(names[p])
  }

  lemma IndexResolves(run: seq<Reading>, schema: seq<Entry>)
    requires Registered(schema) && IndexIsRank(run, schema)
    ensures RankResolves(run, Names(schema), schema)
  {
    forall p | 0 <= p < |schema| && Present(run, Names(schema), p)
      ensures NameAt(schema, Rank(run, Names(schema), p) + 1) == Some(Names(schema)[p])
    {
      NameOfEntry(schema, p);
    }
  }

  /** The list has the names of the fields with readings, each at its rank. */
  ghost predicate ByRank(lead: seq<string>, run: seq<Reading>, names: seq<string>)
    requires AllKnown(run, names)
  {
    && (forall n :: n in lead <==> n in FieldsOf(run))
    && forall i :: 0 <= i < |run| ==> Place(run, names, i) < |lead| && lead[Place(run, names, i)] == run[i].field
  }

  lemma PlaceBelow(run: seq<Reading>, names: seq<string>, i: nat)
    requires AllKnown(run, names) && i < |run|
    ensures Place(run, names, i) < Rank(run, names, |names|)
  {
    var p := Pos(names, run[i].field);
    assert Present(run, names, p);
    RankNext(run, names, p);
    RankMonotone(run, names, p + 1, |names|);
  }

  lemma ResolvedName(run: seq<Reading>, names: seq<string>, schema: seq<Entry>, i: nat)
    requires AllKnown(run, names) && RankResolves(run, names, schema) && i < |run|
    ensures NameAt(schema, Place(run, names, i) + 1) == Some(run[i].field)
  {
    assert Present(run, names, Pos(names, run[i].field));
  }

  lemma ResolvedField(run: seq<Reading>, names: seq<string>, schema: seq<Entry>, q: nat)
    requires AllKnown(run, names) && RankResolves(run, names, schema) && q < Rank(run, names, |names|)
    ensures NameAt(schema, q + 1).Some? && NameAt(schema, q + 1).value in FieldsOf(run)
  {
    var p := RankHit(run, names, |names|, q);
    var i :| 0 <= i < |run| && Pos(names, run[i].field) == p;
  }

  lemma ResolvedUpTo(run: seq<Reading>, names: seq<string>, schema: seq<Entry>, r: nat)
    requires AllKnown(run, names) && RankResolves(run, names, schema) && r == Rank(run, names, |names|)
    ensures KnownUpTo(schema, r)
  {
    forall idx | 1 <= idx <= r ensures NameAt(schema, idx).Some? {
      ResolvedField(run, names, schema, idx - 1);
    }
  }

  lemma ResolvedByRank(run: seq<Reading>, names: seq<string>, schema: seq<Entry>, lead: seq<string>)
    requires AllKnown(run, names) && RankResolves(run, names, schema) && |lead| == Rank(run, names, |names|)
    requires forall q :: 0 <= q < |lead| ==> NameAt(schema, q + 1) == Some(lead[q])
    ensures ByRank(lead, run, names)
  {
    forall i | 0 <= i < |run| ensures Place(run, names, i) < |lead| && lead[Place(run, names, i)] == run[i].field {
      PlaceBelow(run, names, i);
      ResolvedName(run, names, schema, i);
    }
    forall q | 0 <= q < |lead| ensures lead[q] in FieldsOf(run) {
      ResolvedField(run, names, schema, q);
    }
  }

  lemma PairedField(p: Payload, run: seq<Reading>, names: seq<string>, lead: seq<string>, now: int, i: nat)
    requires run != [] && AllKnown(run, names) && Sends(p, run, names) && IsLast(run, names, i)
    requires Distinct(lead) && ByRank(lead, run, names) && |lead| == |p.f|
    ensures var v, n := Paired(p, lead, now), run[i].field;
      && n in v.fields && v.fields[n] == run[i].value
      && n in v.stamps && v.stamps[n] - run[i].ts == now - run[0].ts - Residue(run[0].ts, run[i].ts)
  {
    var q := Place(run, names, i);
    OffsetIs(p.td[q], run[0].ts, run[i].ts);
    OffsetAndResidue(run[0].ts, run[i].ts);
    ZipAt(lead, p.f, q);
    ZipAt(lead, Times(now, p.td, |lead|), q);
  }

  lemma PairedKeys(p: Payload, lead: seq<string>, now: int, fields: set<string>)
    requires |p.f| == |p.td| == |lead| && forall n :: n in lead <==> n in fields
    ensures Paired(p, lead, now).fields.Keys == Paired(p, lead, now).stamps.Keys == fields
  {
  }

  lemma PairedCounts(p: Payload, run: seq<Reading>, names: seq<string>, lead: seq<string>, now: int, v: Input)
    requires run != [] && AllKnown(run, names) && Sends(p, run, names)
    requires Distinct(lead) && ByRank(lead, run, names) && |lead| == |p.f| && v == Paired(p, lead, now)
    ensures CountsFrom(now, v, run, names)
  {
    PairedKeys(p, lead, now, FieldsOf(run));
    forall i | 0 <= i < |run| && IsLast(run, names, i)
      ensures v.fields[run[i].field] == run[i].value
      ensures v.stamps[run[i].field] - run[i].ts == now - run[0].ts - Residue(run[0].ts, run[i].ts)
    {
      PairedField(p, run, names, lead, now, i);
    }
  }

  /** The payload is the one the batcher builds for the run. */
  ghost predicate IsPayload(p: Payload, run: seq<Reading>, schema: seq<Entry>) {
    && run != [] && Registered(schema) && AllKnown(run, Names(schema))
    && Sends(p, run, Names(schema)) && 0 < |p.f| <= |schema|
  }

  /** If indices are ranks, the server reads the run's fields, values and offsets. */
  lemma RanksAreRead(p: Payload, run: seq<Reading>, schema: seq<Entry>, now: int, v: Result<Input, DecodeError>)
    requires IsPayload(p, run, schema) && v == View(p, schema, p.sv, now) && IndexIsRank(run, schema)
    ensures v.Ok? && CountsFrom(now, v.value, run, Names(schema))
  {
    IndexResolves(run, schema);
    ResolvedUpTo(run, Names(schema), schema, |p.f|);
    ViewOfPayload(p, schema, now, |p.f|);
    var lead := LeadingNames(schema, |p.f|);
    LeadingNamesDistinct(schema, |p.f|);
    ResolvedByRank(run, Names(schema), schema, lead);
    PairedCounts(p, run, Names(schema), lead, now, v.value);
  }

  /** If every position below `p` is present, its rank is `p` itself. */
  lemma {:induction false} RankOfLeading(run: seq<Reading>, names: seq<string>, p: nat)
    requires forall q :: 0 <= q < p ==> Present(run, names, q)
    ensures Rank(run, names, p) == p
  {
    if p == 0 {
      RankZero(run, names);
    } else {
      RankOfLeading(run, names, p - 1);
      RankNext(run, names, p - 1);
    }
  }

  /** If the fields with readings are the first `k` of the schema, their ranks are their positions. */
  lemma LeadingRanks(run: seq<Reading>, names: seq<string>, k: nat, p: nat)
    requires AllKnown(run, names) && Distinct(names) && k <= |names|
    requires forall n :: n in names[..k] <==> n in FieldsOf(run)
    requires p < |names| && Present(run, names, p)
    ensures p < k && Rank(run, names, p) == p
  {
    var i :| 0 <= i < |run| && Pos(names, run[i].field) == p;
    assert names[p] in FieldsOf(run);
    var q :| 0 <= q < k && names[..k][q] == names[p];
    assert q == p;
    forall q | 0 <= q < p ensures Present(run, names, q) {
      assert names[..k][q] == names[q];
      assert names[q] in FieldsOf(run);
    }
    RankOfLeading(run, names, p);
  }

  /** Only then: if the first `k` indices name the fields with readings, each of these has its rank as index. */
  lemma NamesForceRanks(run: seq<Reading>, schema: seq<Entry>, k: nat)
    requires Registered(schema) && AllKnown(run, Names(schema)) && KnownUpTo(schema, k)
    requires forall n :: n in LeadingNames(schema, k) <==> n in FieldsOf(run)
    ensures IndexIsRank(run, schema)
  {
    NoGapUpTo(schema, k);
    LeadingNamesAre(schema, k);
    forall p | 0 <= p < |schema| && Present(run, Names(schema), p)
      ensures schema[p].index == Rank(run, Names(schema), p) + 1
    {
      LeadingRanks(run, Names(schema), k, p);
    }
  }

  lemma KeysForceRanks(p: Payload, run: seq<Reading>, schema: seq<Entry>, now: int, v: Result<Input, DecodeError>)
    requires IsPayload(p, run, schema) && v == View(p, schema, p.sv, now)
    ensures v.Ok? && v.value.fields.Keys == FieldsOf(run) ==> IndexIsRank(run, schema)
  {
    ViewOfPayload(p, schema, now, |p.f|);
    if v.Ok? && v.value.fields.Keys == FieldsOf(run) {
      var lead := LeadingNames(schema, |p.f|);
      assert forall n :: n in lead <==> n in v.value.fields.Keys;
      NamesForceRanks(run, schema, |p.f|);
    }
  }

  /** The server gives every value and offset to the field it was recorded for exactly when each field with a
      reading has its rank among those as its index. Otherwise values move to other fields or the request fails. */
  lemma {:induction false} ServerReadsWhatWasMeant(run: seq<Reading>, schema: seq<Entry>, sv: nat, now: int)
    requires run != [] && AllKnown(run, Names(schema)) && Registered(schema)
    ensures var v := View(PayloadOf(run, Names(schema), sv), schema, sv, now);
      v.Ok? && CountsFrom(now, v.value, run, Names(schema)) <==> IndexIsRank(run, schema)
  {
    var p := PayloadOf(run, Names(schema), sv);
    PayloadSends(run, Names(schema), sv);
    var v := View(p, schema, sv, now);
    KeysForceRanks(p, run, schema, now, v);
    if IndexIsRank(run, schema) { RanksAreRead(p, run, schema, now, v); }
  }

  // ---- the times that are decoded ----

  /** Every field of the run is decoded, nothing else is, each with its last value and at that reading's own time to
      the millisecond. */
  ghost predicate DecodedAsRecorded(v: Input, run: seq<Reading>, names: seq<string>) {
    && v.fields.Keys == v.stamps.Keys == FieldsOf(run)
    && forall i :: 0 <= i < |run| && IsLast(run, names, i) ==>
         && v.fields[run[i].field] == run[i].value
         && v.stamps[run[i].field] <= run[i].ts < v.stamps[run[i].field] + GoTime.MILLISECOND
  }

  /** The server's clock is where it must be for each field's last reading. */
  ghost predicate ClockMatches(now: int, run: seq<Reading>, names: seq<string>) {
    forall i :: 0 <= i < |run| && IsLast(run, names, i) ==>
      0 <= run[0].ts - now + Residue(run[0].ts, run[i].ts) < GoTime.MILLISECOND
  }

  lemma DecodedIfClockMatches(now: int, v: Input, run: seq<Reading>, names: seq<string>)
    requires run != [] && CountsFrom(now, v, run, names)
    ensures DecodedAsRecorded(v, run, names) <==> ClockMatches(now, run, names)
  {
    forall i | 0 <= i < |run| && IsLast(run, names, i)
      ensures run[i].field in v.stamps
      ensures v.stamps[run[i].field] <= run[i].ts < v.stamps[run[i].field] + GoTime.MILLISECOND
         <==> 0 <= run[0].ts - now + Residue(run[0].ts, run[i].ts) < GoTime.MILLISECOND
    {
      assert run[i].field in v.stamps.Keys;
    }
  }

  /** A run is decoded as it was recorded exactly when the indices are the ranks and the server's clock still shows the
      base's time, to the millisecond. */
  lemma {:induction false} DecodedExactly(run: seq<Reading>, schema: seq<Entry>, sv: nat, now: int)
    requires run != [] && AllKnown(run, Names(schema)) && Registered(schema)
    ensures var v := View(PayloadOf(run, Names(schema), sv), schema, sv, now);
      v.Ok? && DecodedAsRecorded(v.value, run, Names(schema))
      <==> IndexIsRank(run, schema) && ClockMatches(now, run, Names(schema))
  {
    var p := PayloadOf(run, Names(schema), sv);
    PayloadSends(run, Names(schema), sv);
    var v := View(p, schema, sv, now);
    KeysForceRanks(p, run, schema, now, v);
    if IndexIsRank(run, schema) {
      RanksAreRead(p, run, schema, now, v);
      DecodedIfClockMatches(now, v.value, run, Names(schema));
    }
  }

  // ---- where it goes wrong ----

  /** One reading of a two-field schema's second field is decoded under the first. */
  lemma ValueMovesToAnotherField(run: seq<Reading>, schema: seq<Entry>, sv: nat, now: int)
    requires |run| == 1 && run[0].field == "humidity" && schema == [Entry(1, "temperature"), Entry(2, "humidity")]
    ensures AllKnown(run, Names(schema)) && Registered(schema)
    ensures View(PayloadOf(run, Names(schema), sv), schema, sv, now)
         == Ok(Input(map["temperature" := run[0].value], map["temperature" := now]))
  {
    var names := Names(schema);
    assert names[0] == "temperature" && names[1] == "humidity";
    LonePayload(run, names, sv);
    var p := PayloadOf(run, names, sv);
    NameOfEntry(schema, 0);
    ViewOfPayload(p, schema, now, 1);
    assert LeadingNames(schema, 1) == ["temperature"];
    ZipOne("temperature", p.f);
    ZipOne("temperature", Times(now, p.td, 1));
  }

  /** A lone reading is sent as one value, at offset 0. */
  lemma LonePayload(run: seq<Reading>, names: seq<string>, sv: nat)
    requires |run| == 1 && AllKnown(run, names)
    ensures var p := PayloadOf(run, names, sv); p.f == [run[0].value] && p.td == [0]
  {
    var p := PayloadOf(run, names, sv);
    PayloadSends(run, names, sv);
    assert IsLast(run, names, 0);
    if |p.td| > 1 {
      var i := OffsetOfLast(p, run, names, 0);
      var j := OffsetOfLast(p, run, names, 1);
      assert false;
    }
  }

  lemma ZipOne<V>(n: string, vals: seq<V>)
    requires |vals| == 1
    ensures Zip([n], vals) == map[n := vals[0]]
  {
  }

  /** A channel whose only field has position 2 is never read: the server looks for index 1. */
  lemma GapIsRefused(run: seq<Reading>, name: string, sv: nat, now: int)
    requires run != [] && forall i :: 0 <= i < |run| ==> run[i].field == name
    ensures var schema := [Entry(2, name)];
      && AllKnown(run, Names(schema)) && Registered(schema)
      && View(PayloadOf(run, Names(schema), sv), schema, sv, now) == Err(UnknownFieldIndex(1))
  {
    var schema := [Entry(2, name)];
    assert name == Names(schema)[0];
    assert NameAt(schema, 1).None?;
    PayloadSends(run, Names(schema), sv);
    ViewOfPayload(PayloadOf(run, Names(schema), sv), schema, now, 1);
  }

  /** A lone reading that reaches the server a minute later is given a time a minute late. */
  lemma AMinuteLate(run: seq<Reading>, schema: seq<Entry>, sv: nat)
    requires |run| == 1 && schema == [Entry(1, run[0].field)]
    ensures AllKnown(run, Names(schema)) && Registered(schema)
    ensures var late := run[0].ts + 60 * GoTime.SECOND;
      View(PayloadOf(run, Names(schema), sv), schema, sv, late)
      == Ok(Input(map[run[0].field := run[0].value], map[run[0].field := late]))
  {
    var late, n := run[0].ts + 60 * GoTime.SECOND, run[0].field;
    assert Names(schema)[0] == n;
    LonePayload(run, Names(schema), sv);
    var p := PayloadOf(run, Names(schema), sv);
    NameOfEntry(schema, 0);
    ViewOfPayload(p, schema, late, 1);
    assert LeadingNames(schema, 1) == [n];
    ZipOne(n, p.f);
    ZipOne(n, Times(late, p.td, 1));
  }
}
