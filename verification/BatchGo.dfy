/** sdk/go/batch.go: the single-pass batcher over slot arrays. */
module BatchGo {
  import opened Prelude
  import opened BatchSpec
  import opened BatchLoop
  import GoTime

  type Uint16 = n: nat | n < 0x1_0000

  /** The slot arrays read as a sequence of optional slots. */
  function ArraySlots(f: seq<Float64>, td: seq<Uint16>, has: seq<bool>): (s: seq<Option<Slot>>)
    requires |f| == |td| == |has|
    ensures |s| == |f|
    ensures forall p :: 0 <= p < |s| ==> s[p] == if has[p] then Some(Slot(f[p], td[p])) else None
  {
    seq(|f|, p requires 0 <= p < |f| => if has[p] then Some(Slot(f[p], td[p])) else None)
  }

  /** The offset computed with saturating subtraction and truncating division decides as the exact one does. */
  lemma ClampedOffset(base: int, ts: int)
    ensures var ms := GoTime.Milliseconds(GoTime.Sub(ts, base));
            var clamped := if ms < 0 then 0 else ms;
            (clamped <= MAX_TD_MILLIS <==> Fits(base, ts)) && (Fits(base, ts) ==> clamped == Offset(base, ts))
  {
  }

  /** The variables that the loop and the closures `flushBatch` and `resetBatch` share. */
  class Batcher {
    const numFields: nat
    const schemaVersion: nat
    var result: seq<Payload>
    var baseTS: int
    var fVals: array<Float64>
    var tdVals: array<Uint16>
    var hasValue: array<bool>
    var batchUsed: bool

    ghost const names: seq<string>
    ghost var cut: Cut  // the runs flushed so far and the run the arrays hold

    ghost predicate Shaped()
      reads this, fVals, tdVals, hasValue
    {
      && fVals.Length == tdVals.Length == hasValue.Length == numFields == |names|
      && (forall k :: 0 <= k < |cut.closed| ==> cut.closed[k] != [])
      && AllKnown(cut.run, names)
    }

    ghost predicate Valid()
      reads this, fVals, tdVals, hasValue
    {
      && Shaped()
      && (batchUsed <==> cut.run != [])
      && (cut.run != [] ==> baseTS == cut.run[0].ts)
      && ArraySlots(fVals[..], tdVals[..], hasValue[..]) == SlotsOf(cut.run, names)
      && result == PayloadsOf(cut.closed, names, schemaVersion)
    }

    constructor (ghost names: seq<string>, numFields: nat, schemaVersion: nat, base: int)
      requires numFields == |names|
      ensures Valid() && fresh(fVals) && fresh(tdVals) && fresh(hasValue)
      ensures cut == Cut([], []) && baseTS == base
      ensures this.names == names && this.schemaVersion == schemaVersion
    {
      this.names, this.numFields, this.schemaVersion := names, numFields, schemaVersion;
      result, baseTS, batchUsed := [], base, false;
      fVals := new Float64[numFields](_ => Float64(0));
      tdVals := new Uint16[numFields](_ => 0);
      hasValue := new bool[numFields](_ => false);
      cut := Cut([], []);
    }

    /** The values and offsets of the filled slots, in schema order. */
    method Filled(ghost slots: seq<Option<Slot>>) returns (f: seq<Float64>, td: seq<nat>)
      requires fVals.Length == tdVals.Length == hasValue.Length == numFields
      requires slots == ArraySlots(fVals[..], tdVals[..], hasValue[..])
      ensures f == Values(Compact(slots)) && td == Offsets(Compact(slots))
    {
      f, td := [], [];
      for i := 0 to numFields
        invariant f == Values(Compact(slots[..i])) && td == Offsets(Compact(slots[..i]))
      {
        CompactSnoc(slots, i);
        if hasValue[i] {
          f := f + [fVals[i]];
          td := td + [tdVals[i]];
        }
      }
      assert slots[..numFields] == slots;
    }

    /** Appends the filled slots, in schema order, as one payload; the current run is closed. */
    method FlushBatch()
      requires Valid() && batchUsed
      modifies this`result, this`cut
      ensures Shaped() && cut == Cut(old(cut.closed) + [old(cut.run)], [])
      ensures result == PayloadsOf(cut.closed, names, schemaVersion)
    {
      var f, td := Filled(SlotsOf(cut.run, names));
      RunFlushed(cut.run, names);
      if |f| == 0 { return; }
      result := result + [Payload(schemaVersion, GoTime.Unix(baseTS), f, td)];
      cut := Cut(cut.closed + [cut.run], []);
    }

    /** Empty slots and a new base. */
    method ResetBatch(newBase: int)
      requires Shaped() && cut.run == [] && result == PayloadsOf(cut.closed, names, schemaVersion)
      modifies this`baseTS, this`fVals, this`tdVals, this`hasValue, this`batchUsed
      ensures Valid() && fresh(fVals) && fresh(tdVals) && fresh(hasValue) && baseTS == newBase
    {
      baseTS := newBase;
      fVals := new Float64[numFields](_ => Float64(0));
      tdVals := new Uint16[numFields](_ => 0);
      hasValue := new bool[numFields](_ => false);
      batchUsed := false;
    }

    /** The reading takes its field's slot, whatever was there before. */
    method Store(r: Reading, pos: nat, deltaMs: nat)
      requires Valid() && r.field in names && pos == Pos(names, r.field)
      requires deltaMs <= MAX_TD_MILLIS && deltaMs == Offset(baseTS, r.ts) && (cut.run == [] ==> baseTS == r.ts)
      modifies this`cut, this`batchUsed, fVals, tdVals, hasValue
      ensures Valid() && cut == Cut(old(cut.closed), old(cut.run) + [r])
    {
      ghost var was := ArraySlots(fVals[..], tdVals[..], hasValue[..]);
      fVals[pos] := r.value;
      tdVals[pos] := deltaMs % 0x1_0000;
      hasValue[pos] := true;
      assert ArraySlots(fVals[..], tdVals[..], hasValue[..]) == was[pos := Some(Slot(r.value, deltaMs))];
      if cut.run == [] {
        SlotsSingle(r, names);
        assert cut.run + [r] == [r];
      } else {
        SlotsSnoc(cut.run, r, names);
      }
      batchUsed := true;
      cut := Cut(cut.closed, cut.run + [r]);
    }

    /** One pass of the loop: the run goes on while the reading fits its base, else a new one begins. */
    method Add(r: Reading, pos: nat)
      requires Valid() && r.field in names && pos == Pos(names, r.field) && (cut.run == [] ==> baseTS == r.ts)
      modifies this, fVals, tdVals, hasValue
      ensures Valid()
      ensures fVals == old(fVals) || fresh(fVals)
      ensures tdVals == old(tdVals) || fresh(tdVals)
      ensures hasValue == old(hasValue) || fresh(hasValue)
      ensures cut == CutNext(old(cut), r)
    {
      var deltaMs := GoTime.Milliseconds(GoTime.Sub(r.ts, baseTS));
      if deltaMs < 0 { deltaMs := 0; }
      ClampedOffset(baseTS, r.ts);
      if deltaMs > MAX_TD_MILLIS {
        if batchUsed { FlushBatch(); }
        ResetBatch(r.ts);
        deltaMs := 0;
      }
      Store(r, pos, deltaMs);
    }
  }

  /** Index of the first reading of an unknown field, or the number of readings. */
  method CheckFields(readings: seq<Reading>, fieldPos: map<string, int>, ghost names: seq<string>) returns (u: nat)
    requires forall n :: n in fieldPos <==> n in names
    ensures u == FirstUnknown(readings, names, 0)
  {
    for i := 0 to |readings|
      invariant FirstUnknown(readings, names, 0) == FirstUnknown(readings, names, i)
    {
      if readings[i].field !in fieldPos { return i; }
    }
    return |readings|;
  }

  /** The loop over the readings, once they are known to be of schema fields. */
  method Partition(b: Batcher, readings: seq<Reading>, fieldPos: map<string, int>)
    requires readings != [] && AllKnown(readings, b.names)
    requires forall n :: n in b.names ==> n in fieldPos && fieldPos[n] == Pos(b.names, n)
    requires b.Valid() && b.cut == Cut([], []) && b.baseTS == readings[0].ts
    modifies b, b.fVals, b.tdVals, b.hasValue
    ensures b.Valid() && b.cut == CutAfter(readings, |readings|)
  {
    for i := 0 to |readings|
      invariant b.Valid() && b.cut == CutAfter(readings, i)
      invariant i == 0 ==> b.baseTS == readings[0].ts
      invariant b.fVals == old(b.fVals) || fresh(b.fVals)
      invariant b.tdVals == old(b.tdVals) || fresh(b.tdVals)
      invariant b.hasValue == old(b.hasValue) || fresh(b.hasValue)
    {
      var r := readings[i];
      b.Add(r, fieldPos[r.field]);
    }
  }

  method BuildBatches(readings: seq<Reading>, names: seq<string>, schemaVersion: nat)
    returns (r: Result<seq<Payload>, BatchError>)
    ensures r == Batches(readings, names, schemaVersion)
  {
    if |readings| == 0 { return Err(NoReadings); }
    var numFields := |names|;
    if numFields == 0 { return Err(NoFields); }
    var fieldPos := FieldPositions(names);
    var u := CheckFields(readings, fieldPos, names);
    if u < |readings| { return Err(UnknownField(readings[u].field)); }

    var b := new Batcher(names, numFields, schemaVersion, readings[0].ts);
    Partition(b, readings, fieldPos);
    CutIsRuns(readings);
    RunsNonEmpty(readings, 0);
    if b.batchUsed { b.FlushBatch(); }
    return Ok(b.result);
  }
}
