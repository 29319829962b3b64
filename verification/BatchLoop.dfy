/** What the two batchers' loops have in common: slot updates, the name lookup and the state of the cut. */
module BatchLoop {
  import opened Prelude
  import opened BatchSpec

  /** Adding one reading to a run changes its own slot only. */
  lemma SlotsSnoc(run: seq<Reading>, r: Reading, names: seq<string>)
    requires run != [] && r.field in names
    ensures SlotsOf(run + [r], names)
         == SlotsOf(run, names)[Pos(names, r.field) := Some(Slot(r.value, Offset(run[0].ts, r.ts)))]
  {
  }

  lemma SlotsSingle(r: Reading, names: seq<string>)
    requires r.field in names
    ensures forall p :: 0 <= p < |names| ==>
      SlotAt([r], names, p) == if p == Pos(names, r.field) then Some(Slot(r.value, 0)) else None
  {
  }

  /** A non-empty run of known fields fills at least one slot, so its flush is never skipped. */
  lemma RunFlushed(run: seq<Reading>, names: seq<string>)
    requires run != [] && AllKnown(run, names)
    ensures Compact(SlotsOf(run, names)) != []
  {
    var p := Pos(names, run[0].field);
    assert LastAt(run, names, p) >= 0;
    CompactNonEmpty(SlotsOf(run, names), p);
  }

  lemma {:induction false} CompactNonEmpty(slots: seq<Option<Slot>>, p: nat)
    requires p < |slots| && slots[p].Some?
    ensures Compact(slots) != []
  {
    var n := |slots|;
    if p < n - 1 {
      CompactNonEmpty(slots[..n - 1], p);
    }
  }

  /** `fieldPos`: the map from names to positions, built in schema order. */
  method FieldPositions(names: seq<string>) returns (fieldPos: map<string, int>)
    ensures forall n :: n in fieldPos <==> n in names
    ensures forall n :: n in fieldPos ==> fieldPos[n] == Pos(names, n)
  {
    fieldPos := map[];
    for i := 0 to |names|
      invariant forall n :: n in fieldPos <==> n in names[..i]
      invariant forall n :: n in fieldPos ==> fieldPos[n] == Pos(names[..i], n)
    {
      assert names[..i + 1][..i] == names[..i];
      fieldPos := fieldPos[names[i] := i];
    }
    assert names[..|names|] == names;
  }

  /** What the loop has after some readings: the runs it closed and the run the slots stand for. */
  datatype Cut = Cut(closed: seq<seq<Reading>>, run: seq<Reading>)

  function CutNext(c: Cut, r: Reading): Cut {
    if c.run == [] || Fits(c.run[0].ts, r.ts) then Cut(c.closed, c.run + [r])
    else Cut(c.closed + [c.run], [r])
  }

  function CutAfter(rs: seq<Reading>, i: nat): (c: Cut)
    requires i <= |rs|
    ensures c.run != [] <==> i > 0
    ensures i == 0 ==> c.closed == []
    ensures forall k :: 0 <= k < |c.closed| ==> c.closed[k] != []
    ensures forall r :: r in c.run ==> r in rs
  {
    if i == 0 then Cut([], []) else CutNext(CutAfter(rs, i - 1), rs[i - 1])
  }

  /** Cutting reading by reading gives the runs of the specification. */
  lemma {:induction false} CutIsRuns(rs: seq<Reading>)
    requires rs != []
    ensures CutAfter(rs, |rs|).closed + [CutAfter(rs, |rs|).run] == Runs(rs, 0)
  {
    var start := CutTracksRuns(rs, |rs|);
    var c := CutAfter(rs, |rs|);
    assert Runs(rs, start) == [c.run] + Runs(rs, |rs|);
  }

  /** The current run starts at `start`, has met only fitting readings, and the closed runs precede it. */
  ghost predicate Tracks(rs: seq<Reading>, start: nat, i: nat, c: Cut) {
    && start < i <= |rs|
    && c.run == rs[start..i]
    && RunEnd(rs, start, start + 1) == RunEnd(rs, start, i)
    && c.closed + Runs(rs, start) == Runs(rs, 0)
  }

  lemma {:induction false} CutTracksRuns(rs: seq<Reading>, i: nat) returns (start: nat)
    requires 0 < i <= |rs|
    ensures Tracks(rs, start, i, CutAfter(rs, i))
  {
    if i == 1 {
      start := 0;
      assert CutAfter(rs, 1) == CutNext(CutAfter(rs, 0), rs[0]) == Cut([], [rs[0]]);
      assert [] + Runs(rs, 0) == Runs(rs, 0);
    } else {
      start := CutTracksRuns(rs, i - 1);
      var c := CutAfter(rs, i - 1);
      TracksNext(rs, start, i - 1, c);
      if !Fits(c.run[0].ts, rs[i - 1].ts) { start := i - 1; }
    }
  }

  lemma TracksNext(rs: seq<Reading>, start: nat, i: nat, c: Cut)
    requires i < |rs| && Tracks(rs, start, i, c)
    ensures Tracks(rs, if Fits(c.run[0].ts, rs[i].ts) then start else i, i + 1, CutNext(c, rs[i]))
  {
    assert c.run[0] == rs[start];
    if Fits(c.run[0].ts, rs[i].ts) {
      assert rs[start..i + 1] == rs[start..i] + [rs[i]];
    } else {
      assert Runs(rs, start) == [c.run] + Runs(rs, i);
      assert (c.closed + [c.run]) + Runs(rs, i) == c.closed + Runs(rs, start);
      assert rs[i..i + 1] == [rs[i]];
    }
  }
}
