/** What the batcher guarantees: the cut is right and as coarse as possible, and each payload carries its run. */
module BatchTheorems {
  import opened Prelude
  import opened BatchSpec
  import GoTime

  // ---- the units ----

  /** A reading fits a base exactly when it lies less than 65 536 ms after it: 16 bits of whole milliseconds. */
  lemma FitsExactly(base: int, ts: int)
    ensures Fits(base, ts) <==> ts - base < 65_536_000_000
  {
  }

  /** `td` is the number of whole milliseconds from `base` to `ts`, or 0 for a reading before the base. */
  predicate WholeMillis(td: nat, base: int, ts: int) {
    if ts <= base then td == 0 else td * 1_000_000 <= ts - base < (td + 1) * 1_000_000
  }

  lemma OffsetIs(td: nat, base: int, ts: int)
    ensures WholeMillis(td, base, ts) <==> td == Offset(base, ts)
  {
  }

  // ---- the cut ----

  /** All readings lie less than 65 536 ms after the first. */
  ghost predicate InRange(run: seq<Reading>) {
    run != [] && forall j :: 0 <= j < |run| ==> run[j].ts - run[0].ts < 65_536 * GoTime.MILLISECOND
  }

  /** A way of cutting the readings into contiguous runs that one payload each can hold. */
  ghost predicate IsCutting(parts: seq<seq<Reading>>, rs: seq<Reading>) {
    Flatten(parts) == rs && forall k :: 0 <= k < |parts| ==> InRange(parts[k])
  }

  /** No run could have taken the reading after it. */
  ghost predicate Greedy(parts: seq<seq<Reading>>) {
    forall j, k :: 0 <= j < k < |parts| && k == j + 1 ==>
      parts[j] != [] && parts[k] != [] && parts[k][0].ts - parts[j][0].ts >= 65_536 * GoTime.MILLISECOND
  }

  lemma {:induction false} RunsCut(rs: seq<Reading>, start: nat)
    requires start <= |rs|
    ensures IsCutting(Runs(rs, start), rs[start..])
    ensures Greedy(Runs(rs, start)) && (start < |rs| ==> Runs(rs, start) != [] && Runs(rs, start)[0][0] == rs[start])
    decreases |rs| - start
  {
    if start < |rs| {
      var e := RunEnd(rs, start, start + 1);
      var first, rest := rs[start..e], Runs(rs, e);
      RunsCut(rs, e);
      assert rs[start..] == first + rs[e..];
      assert Runs(rs, start) == [first] + rest;
      assert Flatten([first] + rest) == first + Flatten(rest) by {
        assert ([first] + rest)[1..] == rest;
      }
      forall j | 0 <= j < |first| ensures first[j].ts - first[0].ts < 65_536 * GoTime.MILLISECOND {
        FitsExactly(rs[start].ts, rs[start + j].ts);
      }
      if e < |rs| { FitsExactly(rs[start].ts, rs[e].ts); }
    }
  }

  /** No cut from `k` on uses fewer runs than the greedy one does from `start` on, if the reading at
      `start` is the latest of those from `k` to it. */
  lemma {:induction false} GreedyStaysAhead(rs: seq<Reading>, k: nat, start: nat, parts: seq<seq<Reading>>)
    requires k <= start <= |rs|
    requires IsCutting(parts, rs[k..])
    requires start < |rs| ==> forall j :: k <= j <= start ==> rs[j].ts <= rs[start].ts
    ensures |Runs(rs, start)| <= |parts|
    decreases |parts|
  {
    if start < |rs| {
      var m := |parts[0]|;
      assert rs[k..][..m] == parts[0] && rs[k..][m..] == Flatten(parts[1..]);
      assert rs[k + m..] == rs[k..][m..];
      assert IsCutting(parts[1..], rs[k + m..]);
      if k + m <= start {
        GreedyStaysAhead(rs, k + m, start, parts[1..]);
      } else {
        var e := RunEnd(rs, start, start + 1);
        FirstPartFits(rs, k, start, m);
        RunEndPast(rs, start, start + 1, k + m);
        if e < |rs| {
          forall j | k + m <= j <= e ensures rs[j].ts <= rs[e].ts {
            if j < e { LaterThanFitting(rs[start].ts, rs[j].ts, rs[e].ts); }
          }
        }
        GreedyStaysAhead(rs, k + m, e, parts[1..]);
      }
    }
  }

  lemma FirstPartFits(rs: seq<Reading>, k: nat, start: nat, m: nat)
    requires k <= start < k + m <= |rs| && rs[k].ts <= rs[start].ts
    requires InRange(rs[k..][..m])
    ensures forall j :: start <= j < k + m ==> Fits(rs[start].ts, rs[j].ts)
  {
    forall j | start <= j < k + m ensures Fits(rs[start].ts, rs[j].ts) {
      assert rs[k..][..m][j - k] == rs[j];
      FitsExactly(rs[start].ts, rs[j].ts);
    }
  }

  lemma LaterThanFitting(b: int, fits: int, not: int)
    requires Fits(b, fits) && !Fits(b, not)
    ensures fits < not
  {
  }

  lemma {:induction false} RunEndPast(rs: seq<Reading>, start: nat, i: nat, upto: nat)
    requires start < i <= |rs| && upto <= |rs|
    requires forall j :: start <= j < upto ==> Fits(rs[start].ts, rs[j].ts)
    ensures RunEnd(rs, start, i) >= upto
    decreases |rs| - i
  {
  }

  // ---- the payload ----

  predicate Present(run: seq<Reading>, names: seq<string>, p: int) {
    exists i :: 0 <= i < |run| && Pos(names, run[i].field) == p
  }

  /** How many schema positions before `q` the run has a reading for. */
  function Rank(run: seq<Reading>, names: seq<string>, q: nat): nat {
    |set p | 0 <= p < q && Present(run, names, p)|
  }

  ghost predicate IsLast(run: seq<Reading>, names: seq<string>, i: nat) {
    i < |run| && forall j :: i < j < |run| ==> Pos(names, run[j].field) != Pos(names, run[i].field)
  }

  /** The rank of a reading's field. */
  function Place(run: seq<Reading>, names: seq<string>, i: nat): nat
    requires i < |run| && run[i].field in names
  {
    Rank(run, names, Pos(names, run[i].field))
  }

  /** One value and one offset for every field present, each field's at its rank and from its last reading. */
  ghost predicate Sends(p: Payload, run: seq<Reading>, names: seq<string>)
    requires run != [] && AllKnown(run, names)
  {
    && |p.f| == |p.td| == Rank(run, names, |names|)
    && forall i :: 0 <= i < |run| && IsLast(run, names, i) ==>
         var q := Place(run, names, i);
         q < |p.f| && p.f[q] == run[i].value && WholeMillis(p.td[q], run[0].ts, run[i].ts)
  }

  /** The payload holds, in schema order, the value and offset of the last reading of every field present,
      and nothing else. */
  ghost predicate Carries(p: Payload, run: seq<Reading>, names: seq<string>, sv: nat)
    requires run != [] && AllKnown(run, names)
  {
    && p.sv == sv
    && p.ts * GoTime.SECOND <= run[0].ts < (p.ts + 1) * GoTime.SECOND
    && Sends(p, run, names) && p.f != []
    && forall q :: 0 <= q < |p.td| ==> p.td[q] < 65_536
  }

  lemma RankNext(run: seq<Reading>, names: seq<string>, q: nat)
    ensures Rank(run, names, q + 1) == Rank(run, names, q) + (if Present(run, names, q) then 1 else 0)
  {
    var a := set p | 0 <= p < q && Present(run, names, p);
    var b := set p | 0 <= p < q + 1 && Present(run, names, p);
    if Present(run, names, q) {
      assert b == a + {q};
    } else {
      assert b == a;
    }
  }

  lemma RankZero(run: seq<Reading>, names: seq<string>)
    ensures Rank(run, names, 0) == 0
  {
  }

  lemma LastIsPresent(run: seq<Reading>, names: seq<string>, p: int)
    ensures LastAt(run, names, p) >= 0 <==> Present(run, names, p)
    ensures LastAt(run, names, p) >= 0 ==> IsLast(run, names, LastAt(run, names, p))
  {
  }

  lemma {:induction false} RankMonotone(run: seq<Reading>, names: seq<string>, p: nat, q: nat)
    requires p <= q
    ensures Rank(run, names, p) <= Rank(run, names, q)
    decreases q - p
  {
    if p < q {
      RankNext(run, names, p);
      RankMonotone(run, names, p + 1, q);
    }
  }

  /** Compacting the slots up to `n` leaves as many as there are fields present. */
  lemma {:induction false} CompactLength(run: seq<Reading>, names: seq<string>, n: nat)
    requires n <= |names|
    ensures |Compact(SlotsOf(run, names)[..n])| == Rank(run, names, n)
  {
    if n == 0 {
      RankZero(run, names);
    } else {
      var s := SlotsOf(run, names);
      CompactLength(run, names, n - 1);
      RankNext(run, names, n - 1);
      LastIsPresent(run, names, n - 1);
      CompactSnoc(s, n - 1);
      assert s[n - 1].Some? <==> Present(run, names, n - 1);
    }
  }

  /** A field present sits at its rank. */
  lemma {:induction false} CompactAtRank(run: seq<Reading>, names: seq<string>, n: nat, p: nat)
    requires p < n <= |names| && Present(run, names, p)
    ensures var c := Compact(SlotsOf(run, names)[..n]);
      Rank(run, names, p) < |c| && Some(c[Rank(run, names, p)]) == SlotAt(run, names, p)
  {
    CompactSnoc(SlotsOf(run, names), n - 1);
    if p < n - 1 {
      CompactAtRank(run, names, n - 1, p);
    } else {
      CompactLength(run, names, p);
      LastIsPresent(run, names, p);
    }
  }

  /** Every rank below the total is some present field's. */
  lemma {:induction false} RankHit(run: seq<Reading>, names: seq<string>, n: nat, q: nat) returns (p: nat)
    requires q < Rank(run, names, n)
    ensures p < n && Present(run, names, p) && Rank(run, names, p) == q
  {
    RankZero(run, names);
    RankNext(run, names, n - 1);
    if q < Rank(run, names, n - 1) {
      p := RankHit(run, names, n - 1, q);
    } else {
      p := n - 1;
    }
  }

  /** Every last reading of a field sits at its rank. */
  lemma LastReadingRanked(run: seq<Reading>, names: seq<string>, c: seq<Slot>, i: nat)
    requires run != [] && AllKnown(run, names) && IsLast(run, names, i) && c == Compact(SlotsOf(run, names))
    ensures var q := Place(run, names, i); q < |c| && c[q] == Slot(run[i].value, Offset(run[0].ts, run[i].ts))
  {
    var s, p := SlotsOf(run, names), Pos(names, run[i].field);
    assert s[..|names|] == s;
    assert Present(run, names, p);
    CompactAtRank(run, names, |names|, p);
    assert LastAt(run, names, p) == i;
  }

  lemma PayloadSends(run: seq<Reading>, names: seq<string>, sv: nat)
    requires run != [] && AllKnown(run, names)
    ensures Sends(PayloadOf(run, names, sv), run, names) && 0 < |PayloadOf(run, names, sv).f| <= |names|
  {
    var p, c := PayloadOf(run, names, sv), Compact(SlotsOf(run, names));
    assert SlotsOf(run, names)[..|names|] == SlotsOf(run, names);
    CompactLength(run, names, |names|);
    forall i | 0 <= i < |run| && IsLast(run, names, i)
      ensures var q := Place(run, names, i);
              q < |p.f| && p.f[q] == run[i].value && WholeMillis(p.td[q], run[0].ts, run[i].ts)
    {
      LastReadingRanked(run, names, c, i);
      OffsetIs(Offset(run[0].ts, run[i].ts), run[0].ts, run[i].ts);
    }
    var pos := Pos(names, run[0].field);
    assert Present(run, names, pos);
    RankNext(run, names, pos);
    RankMonotone(run, names, pos + 1, |names|);
  }

  /** Every offset sent is some last reading's. */
  lemma OffsetOfLast(p: Payload, run: seq<Reading>, names: seq<string>, q: nat) returns (i: nat)
    requires run != [] && AllKnown(run, names) && Sends(p, run, names) && q < |p.td|
    ensures IsLast(run, names, i) && Place(run, names, i) == q && p.td[q] == Offset(run[0].ts, run[i].ts)
  {
    var pos := RankHit(run, names, |names|, q);
    LastIsPresent(run, names, pos);
    i := LastAt(run, names, pos);
    OffsetIs(p.td[q], run[0].ts, run[i].ts);
  }

  lemma PayloadCarriesRun(run: seq<Reading>, names: seq<string>, sv: nat)
    requires run != [] && AllKnown(run, names)
    requires InRange(run)
    ensures Carries(PayloadOf(run, names, sv), run, names, sv)
  {
    PayloadSends(run, names, sv);
    var p := PayloadOf(run, names, sv);
    forall q | 0 <= q < |p.td| ensures p.td[q] < 65_536 {
      var i := OffsetOfLast(p, run, names, q);
      FitsExactly(run[0].ts, run[i].ts);
    }
  }

  /** The description leaves no freedom: it fixes the payload. */
  lemma CarriesDetermines(p: Payload, p': Payload, run: seq<Reading>, names: seq<string>, sv: nat)
    requires run != [] && AllKnown(run, names)
    requires Carries(p, run, names, sv) && Carries(p', run, names, sv)
    ensures p == p'
  {
    forall q | 0 <= q < |p.f| ensures p.f[q] == p'.f[q] && p.td[q] == p'.td[q] {
      var i := OffsetOfLast(p, run, names, q);
    }
  }

  /** What a call delivers, for readings in any order and any schema. */
  lemma {:induction false} BatchesDeliver(rs: seq<Reading>, names: seq<string>, sv: nat)
    ensures Batches(rs, names, sv).Ok? <==> rs != [] && names != [] && AllKnown(rs, names)
    ensures Batches(rs, names, sv).Ok? ==>
      var ps, runs := Batches(rs, names, sv).value, Runs(rs, 0);
      && IsCutting(runs, rs) && Greedy(runs) && |ps| == |runs|
      && forall k :: 0 <= k < |ps| ==> AllKnown(runs[k], names) && Carries(ps[k], runs[k], names, sv)
  {
    if Batches(rs, names, sv).Ok? {
      RunsCut(rs, 0);
      assert rs[0..] == rs;
      var runs := Runs(rs, 0);
      forall k | 0 <= k < |runs|
        ensures AllKnown(runs[k], names) && Carries(PayloadOf(runs[k], names, sv), runs[k], names, sv)
      {
        RunsKnown(rs, names, 0, k);
        PayloadCarriesRun(runs[k], names, sv);
      }
    }
  }

  /** Otherwise: nothing to send, no fields, or the first reading's field that the schema lacks. */
  lemma BatchErrors(rs: seq<Reading>, names: seq<string>, sv: nat, name: string)
    ensures Batches(rs, names, sv) == Err(NoReadings) <==> rs == []
    ensures Batches(rs, names, sv) == Err(NoFields) <==> rs != [] && names == []
    ensures Batches(rs, names, sv) == Err(UnknownField(name))
       <==> && names != [] && name !in names
            && exists i :: 0 <= i < |rs| && rs[i].field == name && forall j :: 0 <= j < i ==> rs[j].field in names
  {
  }

  lemma {:induction false} RunsKnown(rs: seq<Reading>, names: seq<string>, start: nat, k: nat)
    requires start <= |rs| && AllKnown(rs, names) && k < |Runs(rs, start)|
    ensures AllKnown(Runs(rs, start)[k], names)
    decreases |rs| - start
  {
    if k > 0 {
      RunsKnown(rs, names, RunEnd(rs, start, start + 1), k - 1);
    }
  }

  /** The number of payloads is the least any admissible cutting needs, whatever the order of the readings. */
  lemma FewestPayloads(rs: seq<Reading>, names: seq<string>, sv: nat, parts: seq<seq<Reading>>)
    requires Batches(rs, names, sv).Ok? && IsCutting(parts, rs)
    ensures |Batches(rs, names, sv).value| <= |parts|
  {
    assert rs[0..] == rs;
    GreedyStaysAhead(rs, 0, 0, parts);
  }

  // ---- decoding times ----

  /** The instant a receiver reads from a payload's base second and an offset. */
  function Decoded(p: Payload, td: nat): int { p.ts * GoTime.SECOND + td * GoTime.MILLISECOND }

  /** A decoded time is early by less than 1001 ms, and it is late exactly for a reading from before the
      whole second of its run's base. */
  lemma DecodedTime(run: seq<Reading>, names: seq<string>, sv: nat, i: nat)
    requires i < |run|
    ensures var p, ts := PayloadOf(run, names, sv), run[i].ts;
      var d := Decoded(p, Offset(run[0].ts, ts));
      ts - d < 1001 * GoTime.MILLISECOND && (d <= ts <==> p.ts * GoTime.SECOND <= ts)
  {
  }
}
