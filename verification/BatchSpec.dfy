/** What the SDK batcher promises: how readings are cut into runs and what one run is sent as. */
module BatchSpec {
  import opened Prelude
  import GoTime

  const MAX_TD_MILLIS: int := 65535

  datatype Reading = Reading(field: string, value: Float64, ts: int)

  datatype Payload = Payload(sv: nat, ts: int, f: seq<Float64>, td: seq<nat>)

  datatype BatchError = NoReadings | NoFields | UnknownField(name: string)

  datatype Slot = Slot(value: Float64, td: nat)

  /** Whole milliseconds from `base` to `ts`; a reading before the base counts as offset 0. */
  function Offset(base: int, ts: int): nat {
    if ts <= base then 0 else (ts - base) / GoTime.MILLISECOND
  }

  predicate Fits(base: int, ts: int) { Offset(base, ts) <= MAX_TD_MILLIS }

  // ---- cutting ----

  /** First index from `i` on whose reading does not fit the base at `start`. */
  function RunEnd(rs: seq<Reading>, start: nat, i: nat): (e: nat)
    requires start < i <= |rs|
    ensures i <= e <= |rs|
    ensures forall j :: i <= j < e ==> Fits(rs[start].ts, rs[j].ts)
    ensures e < |rs| ==> !Fits(rs[start].ts, rs[e].ts)
    decreases |rs| - i
  {
    if i == |rs| || !Fits(rs[start].ts, rs[i].ts) then i else RunEnd(rs, start, i + 1)
  }

  function Runs(rs: seq<Reading>, start: nat): seq<seq<Reading>>
    requires start <= |rs|
    decreases |rs| - start
  {
    if start == |rs| then []
    else
      var e := RunEnd(rs, start, start + 1);
      [rs[start..e]] + Runs(rs, e)
  }

  // ---- one run as a payload ----

  /** Position of a field name in the schema; of equal names the last one, as a map built in order keeps. */
  function Pos(names: seq<string>, name: string): (p: int)
    ensures -1 <= p < |names|
    ensures p >= 0 ==> names[p] == name && forall q :: p < q < |names| ==> names[q] != name
    ensures p < 0 ==> name !in names
  {
    var n := |names|;
    if n == 0 then -1 else if names[n - 1] == name then n - 1 else Pos(names[..n - 1], name)
  }

  /** Index of the last reading of the run for schema position `p`, or -1. */
  function LastAt(run: seq<Reading>, names: seq<string>, p: int): (i: int)
    ensures -1 <= i < |run|
    ensures i >= 0 ==> Pos(names, run[i].field) == p
    ensures forall j :: i < j < |run| ==> Pos(names, run[j].field) != p
  {
    var n := |run|;
    if n == 0 then -1
    else if Pos(names, run[n - 1].field) == p then n - 1
    else LastAt(run[..n - 1], names, p)
  }

  function SlotAt(run: seq<Reading>, names: seq<string>, p: int): Option<Slot>
  {
    var i := LastAt(run, names, p);
    if i < 0 then None else Some(Slot(run[i].value, Offset(run[0].ts, run[i].ts)))
  }

  function SlotsOf(run: seq<Reading>, names: seq<string>): (s: seq<Option<Slot>>)
    ensures |s| == |names| && forall p :: 0 <= p < |s| ==> s[p] == SlotAt(run, names, p)
  {
    seq(|names|, p => SlotAt(run, names, p))
  }

  /** The filled slots, in order. */
  function Compact(slots: seq<Option<Slot>>): (c: seq<Slot>)
    ensures |c| <= |slots|
  {
    var n := |slots|;
    if n == 0 then []
    else Compact(slots[..n - 1]) + (if slots[n - 1].Some? then [slots[n - 1].value] else [])
  }

  lemma CompactSnoc(s: seq<Option<Slot>>, n: nat)
    requires n < |s|
    ensures Compact(s[..n + 1]) == Compact(s[..n]) + (if s[n].Some? then [s[n].value] else [])
  {
    assert s[..n + 1][..n] == s[..n];
  }

  function Values(c: seq<Slot>): (f: seq<Float64>)
    ensures |f| == |c| && forall i :: 0 <= i < |f| ==> f[i] == c[i].value
  {
    seq(|c|, i requires 0 <= i < |c| => c[i].value)
  }

  function Offsets(c: seq<Slot>): (td: seq<nat>)
    ensures |td| == |c| && forall i :: 0 <= i < |td| ==> td[i] == c[i].td
  {
    seq(|c|, i requires 0 <= i < |c| => c[i].td)
  }

  function PayloadOf(run: seq<Reading>, names: seq<string>, sv: nat): Payload
    requires run != []
  {
    var c := Compact(SlotsOf(run, names));
    Payload(sv, GoTime.Unix(run[0].ts), Values(c), Offsets(c))
  }

  function PayloadsOf(runs: seq<seq<Reading>>, names: seq<string>, sv: nat): (ps: seq<Payload>)
    requires forall k :: 0 <= k < |runs| ==> runs[k] != []
    ensures |ps| == |runs|
    ensures forall k :: 0 <= k < |ps| ==> ps[k] == PayloadOf(runs[k], names, sv)
  {
    seq(|runs|, k requires 0 <= k < |runs| => PayloadOf(runs[k], names, sv))
  }

  // ---- the whole call ----

  predicate AllKnown(rs: seq<Reading>, names: seq<string>) {
    forall i :: 0 <= i < |rs| ==> rs[i].field in names
  }

  /** Index of the first reading of a field the schema lacks, or |rs|. */
  function FirstUnknown(rs: seq<Reading>, names: seq<string>, from: nat): (i: nat)
    requires from <= |rs|
    ensures from <= i <= |rs|
    ensures i < |rs| ==> rs[i].field !in names
    ensures forall j :: from <= j < i ==> rs[j].field in names
    decreases |rs| - from
  {
    if from == |rs| || rs[from].field !in names then from else FirstUnknown(rs, names, from + 1)
  }

  lemma {:induction false} RunsNonEmpty(rs: seq<Reading>, start: nat)
    requires start <= |rs|
    ensures forall k :: 0 <= k < |Runs(rs, start)| ==> Runs(rs, start)[k] != []
    decreases |rs| - start
  {
    if start < |rs| {
      RunsNonEmpty(rs, RunEnd(rs, start, start + 1));
    }
  }

  function Batches(rs: seq<Reading>, names: seq<string>, sv: nat): Result<seq<Payload>, BatchError> {
    if rs == [] then Err(NoReadings)
    else if names == [] then Err(NoFields)
    else
      var u := FirstUnknown(rs, names, 0);
      if u < |rs| then Err(UnknownField(rs[u].field))
      else
        RunsNonEmpty(rs, 0);
        Ok(PayloadsOf(Runs(rs, 0), names, sv))
  }
}
