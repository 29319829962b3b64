/** sdk/python/greenlab/batch.py: the second batcher, over lists of optional slots and microsecond times. */
module BatchPython {
  import opened Prelude
  import opened BatchSpec
  import opened BatchLoop
  import GoTime

  datatype PyReading = PyReading(field: string, value: Float64, us: int)

  /** The same readings with their times in nanoseconds. */
  function InNanos(rs: seq<PyReading>): (g: seq<Reading>)
    ensures |g| == |rs|
    ensures forall i :: 0 <= i < |rs| ==> g[i] == Reading(rs[i].field, rs[i].value, rs[i].us * 1000)
  {
    seq(|rs|, i requires 0 <= i < |rs| => Reading(rs[i].field, rs[i].value, rs[i].us * 1000))
  }

  /** `int(base_ts.timestamp())`: whole seconds, rounded toward zero. */
  function Timestamp(us: int): int { GoTime.TruncDiv(us, 1_000_000) }

  function PyPayload(run: seq<Reading>, names: seq<string>, sv: nat): Payload
    requires run != []
  {
    PayloadOf(run, names, sv).(ts := GoTime.TruncDiv(run[0].ts, GoTime.SECOND))
  }

  function PyPayloads(runs: seq<seq<Reading>>, names: seq<string>, sv: nat): (ps: seq<Payload>)
    requires forall k :: 0 <= k < |runs| ==> runs[k] != []
    ensures |ps| == |runs|
    ensures forall k :: 0 <= k < |ps| ==> ps[k] == PyPayload(runs[k], names, sv)
  {
    seq(|runs|, k requires 0 <= k < |runs| => PyPayload(runs[k], names, sv))
  }

  function PyBatches(rs: seq<PyReading>, names: seq<string>, sv: nat): Result<seq<Payload>, BatchError> {
    var g := InNanos(rs);
    if rs == [] then Err(NoReadings)
    else if names == [] then Err(NoFields)
    else
      var u := FirstUnknown(g, names, 0);
      if u < |rs| then Err(UnknownField(rs[u].field))
      else
        RunsNonEmpty(g, 0);
        Ok(PyPayloads(Runs(g, 0), names, sv))
  }

  /** `int(total_seconds() * 1000)`, clamped at zero, is the offset in whole milliseconds. */
  lemma MicrosOffset(base: int, us: int)
    ensures var ms := GoTime.TruncDiv(us - base, 1000);
            (if ms < 0 then 0 else ms) == Offset(base * 1000, us * 1000)
  {
  }

  lemma TimestampNanos(us: int)
    ensures Timestamp(us) == GoTime.TruncDiv(us * 1000, GoTime.SECOND)
  {
  }

  /** The two slot lists read as one list of optional slots. */
  ghost predicate Holds(fVals: seq<Option<Float64>>, tdVals: seq<Option<nat>>, slots: seq<Option<Slot>>) {
    && |fVals| == |tdVals| == |slots|
    && forall p :: 0 <= p < |slots| ==>
         && fVals[p] == (if slots[p].Some? then Some(slots[p].value.value) else None)
         && tdVals[p] == (if slots[p].Some? then Some(slots[p].value.td) else None)
  }

  /** The loop of `flush`: the slots that are not `None`, in schema order. */
  method FilledSlots(fVals: seq<Option<Float64>>, tdVals: seq<Option<nat>>, ghost slots: seq<Option<Slot>>)
    returns (f: seq<Float64>, td: seq<nat>)
    requires Holds(fVals, tdVals, slots)
    ensures f == Values(Compact(slots)) && td == Offsets(Compact(slots))
  {
    f, td := [], [];
    for i := 0 to |fVals|
      invariant f == Values(Compact(slots[..i])) && td == Offsets(Compact(slots[..i]))
    {
      assert slots[..i + 1][..i] == slots[..i];
      if fVals[i].Some? {
        f := f + [fVals[i].value];
        td := td + [tdVals[i].value];
      }
    }
    assert slots[..|fVals|] == slots;
  }

  function Empty<T>(n: nat): (s: seq<Option<T>>)
    ensures |s| == n && forall p :: 0 <= p < n ==> s[p] == None
  {
    seq(n, _ => None)
  }

  /** Filling the slot of the reading's field extends the run the slots stand for. */
  lemma SlotFilled(fVals: seq<Option<Float64>>, tdVals: seq<Option<nat>>, run: seq<Reading>, r: Reading,
                   names: seq<string>, ms: nat)
    requires r.field in names && Holds(fVals, tdVals, SlotsOf(run, names))
    requires ms == if run == [] then 0 else Offset(run[0].ts, r.ts)
    ensures var p := Pos(names, r.field);
            Holds(fVals[p := Some(r.value)], tdVals[p := Some(ms)], SlotsOf(run + [r], names))
  {
  }

  /** The variables that the loop and the closures `flush` and `reset` share. */
  class PyBatcher {
    const numFields: nat
    const schemaVersion: nat
    var result: seq<Payload>
    var baseTs: int
    var fVals: seq<Option<Float64>>
    var tdVals: seq<Option<nat>>
    var batchUsed: bool

    ghost const names: seq<string>
    ghost var cut: Cut  // the runs flushed so far and the run the slots hold

    ghost predicate Shaped()
      reads this
    {
      && numFields == |names|
      && (forall k :: 0 <= k < |cut.closed| ==> cut.closed[k] != [])
      && AllKnown(cut.run, names)
      && result == PyPayloads(cut.closed, names, schemaVersion)
    }

    ghost predicate Valid()
      reads this
    {
      && Shaped()
      && (batchUsed <==> cut.run != [])
      && (cut.run != [] ==> baseTs * 1000 == cut.run[0].ts)
      && Holds(fVals, tdVals, SlotsOf(cut.run, names))
    }

    constructor (ghost names: seq<string>, numFields: nat, schemaVersion: nat, base: int)
      requires numFields == |names|
      ensures Valid() && cut == Cut([], []) && baseTs == base
      ensures this.names == names && this.schemaVersion == schemaVersion
    {
      this.names, this.numFields, this.schemaVersion := names, numFields, schemaVersion;
      result, baseTs, batchUsed, cut := [], base, false, Cut([], []);
      fVals, tdVals := Empty(numFields), Empty(numFields);
    }

    /** Appends the filled slots as one payload; the current run is closed. */
    method Flush()
      requires Valid() && batchUsed
      modifies this`result, this`cut, this`batchUsed
      ensures Shaped() && cut == Cut(old(cut.closed) + [old(cut.run)], []) && !batchUsed
    {
      var f, td := FilledSlots(fVals, tdVals, SlotsOf(cut.run, names));
      RunFlushed(cut.run, names);
      TimestampNanos(baseTs);
      if |f| == 0 { return; }
      result := result + [Payload(schemaVersion, Timestamp(baseTs), f, td)];
      batchUsed := false;
      cut := Cut(cut.closed + [cut.run], []);
    }

    /** Empty slots and a new base. */
    method Reset(newBase: int)
      requires Shaped() && cut.run == []
      modifies this`baseTs, this`fVals, this`tdVals, this`batchUsed
      ensures Valid() && baseTs == newBase
    {
      baseTs, batchUsed := newBase, false;
      fVals, tdVals := Empty(numFields), Empty(numFields);
    }

    /** One pass of the loop. */
    method Add(r: PyReading, pos: nat)
      requires Valid() && r.field in names && pos == Pos(names, r.field) && (cut.run == [] ==> baseTs == r.us)
      modifies this
      ensures Valid() && cut == CutNext(old(cut), InNanos([r])[0])
    {
      var deltaMs := GoTime.TruncDiv(r.us - baseTs, 1000);
      if deltaMs < 0 { deltaMs := 0; }
      MicrosOffset(baseTs, r.us);
      if deltaMs > MAX_TD_MILLIS {
        if batchUsed { Flush(); }
        Reset(r.us);
        deltaMs := 0;
      }
      ghost var g := InNanos([r])[0];
      SlotFilled(fVals, tdVals, cut.run, g, names, deltaMs);
      fVals, tdVals := fVals[pos := Some(r.value)], tdVals[pos := Some(deltaMs)];
      batchUsed := true;
      cut := Cut(cut.closed, cut.run + [g]);
    }
  }

  method BuildBatches(readings: seq<PyReading>, names: seq<string>, schemaVersion: nat)
    returns (r: Result<seq<Payload>, BatchError>)
    ensures r == PyBatches(readings, names, schemaVersion)
  {
    if |readings| == 0 { return Err(NoReadings); }
    var numFields := |names|;
    if numFields == 0 { return Err(NoFields); }
    var fieldPos := FieldPositions(names);
    ghost var g := InNanos(readings);
    for i := 0 to |readings|
      invariant FirstUnknown(g, names, 0) == FirstUnknown(g, names, i)
    {
      if readings[i].field !in fieldPos { return Err(UnknownField(readings[i].field)); }
    }
    var b := new PyBatcher(names, numFields, schemaVersion, readings[0].us);
    Partition(b, readings, fieldPos);
    CutIsRuns(g);
    RunsNonEmpty(g, 0);
    if b.batchUsed { b.Flush(); }
    return Ok(b.result);
  }

  /** The loop over the readings, once they are known to be of schema fields. */
  method Partition(b: PyBatcher, readings: seq<PyReading>, fieldPos: map<string, int>)
    requires readings != [] && AllKnown(InNanos(readings), b.names)
    requires forall n :: n in b.names ==> n in fieldPos && fieldPos[n] == Pos(b.names, n)
    requires b.Valid() && b.cut == Cut([], []) && b.baseTs == readings[0].us
    modifies b
    ensures b.Valid() && b.cut == CutAfter(InNanos(readings), |readings|)
  {
    ghost var g := InNanos(readings);
    for i := 0 to |readings|
      invariant b.Valid() && b.cut == CutAfter(g, i)
      invariant i == 0 ==> b.baseTs == readings[0].us
    {
      var r := readings[i];
      assert InNanos([r])[0] == g[i];
      assert g[i].field in b.names;
      b.Add(r, fieldPos[r.field]);
    }
  }

  /** The two batchers send the same payloads exactly when no run's base is a fraction of a second before
      a whole second of negative time; from 1970 on they always agree. */
  lemma BatchersAgree(rs: seq<PyReading>, names: seq<string>, sv: nat)
    ensures PyBatches(rs, names, sv) == Batches(InNanos(rs), names, sv)
       <==> (Batches(InNanos(rs), names, sv).Ok? ==>
               forall k :: 0 <= k < |Runs(InNanos(rs), 0)| ==>
                 Runs(InNanos(rs), 0)[k] != [] &&
                 (Runs(InNanos(rs), 0)[k][0].ts >= 0 || Runs(InNanos(rs), 0)[k][0].ts % GoTime.SECOND == 0))
    ensures (forall i :: 0 <= i < |rs| ==> rs[i].us >= 0) ==>
              PyBatches(rs, names, sv) == Batches(InNanos(rs), names, sv)
  {
    var g := InNanos(rs);
    if Batches(g, names, sv).Ok? {
      RunsNonEmpty(g, 0);
      var runs := Runs(g, 0);
      var py, go := PyPayloads(runs, names, sv), PayloadsOf(runs, names, sv);
      forall k | 0 <= k < |runs|
        ensures py[k] == go[k] <==> runs[k][0].ts >= 0 || runs[k][0].ts % GoTime.SECOND == 0
      {
        RoundingsAgree(runs[k][0].ts);
      }
      if forall k :: 0 <= k < |runs| ==> py[k] == go[k] {
        assert py == go;
      }
      if forall i :: 0 <= i < |rs| ==> rs[i].us >= 0 {
        forall k | 0 <= k < |runs| ensures runs[k][0].ts >= 0 { RunStartsIn(g, 0, k); }
        assert py == go;
      }
    }
  }

  /** A lone reading half a second before 1970: the Go batcher sends base second -1, the Python batcher 0. */
  lemma BatchersDiffer(name: string, v: Float64, sv: nat)
    ensures var rs := [PyReading(name, v, -500_000)];
      && Batches(InNanos(rs), [name], sv).Ok? && Batches(InNanos(rs), [name], sv).value[0].ts == -1
      && PyBatches(rs, [name], sv).Ok? && PyBatches(rs, [name], sv).value[0].ts == 0
  {
    var rs := [PyReading(name, v, -500_000)];
    var g := InNanos(rs);
    assert g[0].field in [name] && FirstUnknown(g, [name], 0) == 1;
    RunsNonEmpty(g, 0);
    RunStartsIn(g, 0, 0);
    assert Runs(g, 0)[0][0] == g[0];
  }

  lemma RoundingsAgree(t: int)
    ensures GoTime.TruncDiv(t, GoTime.SECOND) == GoTime.Unix(t) <==> t >= 0 || t % GoTime.SECOND == 0
  {
  }

  lemma {:induction false} RunStartsIn(rs: seq<Reading>, start: nat, k: nat)
    requires start <= |rs| && k < |Runs(rs, start)|
    ensures Runs(rs, start)[k] != [] && Runs(rs, start)[k][0] in rs
    decreases |rs| - start
  {
    var e := RunEnd(rs, start, start + 1);
    if k == 0 {
      assert rs[start..e][0] == rs[start];
    } else {
      RunStartsIn(rs, e, k - 1);
    }
  }
}
