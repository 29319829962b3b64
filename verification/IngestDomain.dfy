/** services/ingestion/internal/domain/reading.go: a stored reading and the checks on what clients send.
    Timestamps are compared as instants; the clock is one value per call. */
module IngestDomain {
  import opened Prelude
  import GoTime

  type Fields = map<string, Float64>

  datatype Reading = Reading(channelId: string, deviceId: string, fields: Fields, tags: map<string, string>, ts: int)

  datatype Fault =
    | InvalidChannelId
    | EmptyFields
    | TimestampFuture
    | TimestampTooOld
    | OutOfReplayWindow
    | PublishFailed

  const SKEW: int := 30 * GoTime.SECOND
  const DAY: int := 24 * 3600 * GoTime.SECOND

  predicate IsHex(c: char) {
    '0' <= c <= '9' || 'a' <= c <= 'f' || 'A' <= c <= 'F'
  }

  predicate IsUuid(id: string) {
    |id| == 36 && forall i :: 0 <= i < 36 ==> if i in {8, 13, 18, 23} then id[i] == '-' else IsHex(id[i])
  }

  const NIL_UUID: string := "00000000-0000-0000-0000-000000000000"

  predicate ValidChannelId(id: string) { IsUuid(id) && id != NIL_UUID }

  /** Hexadecimal digits of either case, so many. */
  predicate HexWord(s: string, n: nat) {
    |s| == n && forall i :: 0 <= i < n ==> s[i] in "0123456789abcdefABCDEF"
  }

  predicate JoinsToUuid(id: string, a: string, b: string, c: string, d: string, e: string) {
    && HexWord(a, 8) && HexWord(b, 4) && HexWord(c, 4) && HexWord(d, 4) && HexWord(e, 12)
    && id == a + "-" + b + "-" + c + "-" + d + "-" + e
  }

  /** The valid channel ids are five dash-joined words of 8, 4, 4, 4 and 12 hexadecimal digits, not all zeros. */
  lemma ChannelIdIsPattern(id: string)
    ensures ValidChannelId(id)
       <==> && (exists a, b, c, d, e :: JoinsToUuid(id, a, b, c, d, e))
            && exists i :: 0 <= i < |id| && id[i] != '0' && id[i] != '-'
  {
    if IsUuid(id) {
      UuidJoins(id);
      NilIsZeros(id);
    }
    if a, b, c, d, e :| JoinsToUuid(id, a, b, c, d, e) {
      JoinedIsUuid(id, a, b, c, d, e);
    }
  }

  lemma HexPart(id: string, from: nat, upto: nat)
    requires from <= upto <= |id| && forall i :: from <= i < upto ==> IsHex(id[i])
    ensures HexWord(id[from..upto], upto - from)
  {
  }

  lemma UuidJoins(id: string)
    requires IsUuid(id)
    ensures JoinsToUuid(id, id[..8], id[9..13], id[14..18], id[19..23], id[24..])
  {
    HexPart(id, 0, 8);
    HexPart(id, 9, 13);
    HexPart(id, 14, 18);
    HexPart(id, 19, 23);
    HexPart(id, 24, 36);
    assert id[0..8] == id[..8] && id[24..36] == id[24..];
    assert id[..8] + "-" + id[9..13] == id[..13] && id[..13] + "-" + id[14..18] == id[..18];
    assert id[..18] + "-" + id[19..23] == id[..23] && id[..23] + "-" + id[24..] == id;
  }

  lemma NilIsZeros(id: string)
    requires IsUuid(id)
    ensures id == NIL_UUID <==> forall i :: 0 <= i < |id| ==> id[i] == '0' || id[i] == '-'
  {
    if forall i :: 0 <= i < |id| ==> id[i] == '0' || id[i] == '-' {
      forall i | 0 <= i < 36 ensures id[i] == NIL_UUID[i] {
      }
    }
  }

  lemma JoinedIsUuid(id: string, a: string, b: string, c: string, d: string, e: string)
    requires JoinsToUuid(id, a, b, c, d, e)
    ensures IsUuid(id)
  {
    forall i | 0 <= i < 36 ensures if i in {8, 13, 18, 23} then id[i] == '-' else IsHex(id[i]) {
      assert i < 8 ==> id[i] == a[i];
      assert 8 < i < 13 ==> id[i] == b[i - 9];
      assert 13 < i < 18 ==> id[i] == c[i - 14];
      assert 18 < i < 23 ==> id[i] == d[i - 19];
      assert 23 < i ==> id[i] == e[i - 24];
    }
  }

  function ValidateTimestamp(ts: int, maxAge: int, now: int): Option<Fault> {
    if ts > now + SKEW then Some(TimestampFuture)
    else if maxAge > 0 && ts < now - maxAge then Some(TimestampTooOld)
    else None
  }

  /** At most half a minute ahead, and if there is a bound, no older than that. */
  predicate InTime(ts: int, maxAge: int, now: int) {
    ts <= now + 30_000_000_000 && (maxAge > 0 ==> now - maxAge <= ts)
  }

  lemma TimestampAcceptance(ts: int, maxAge: int, now: int)
    ensures ValidateTimestamp(ts, maxAge, now) == None <==> InTime(ts, maxAge, now)
    ensures ValidateTimestamp(ts, maxAge, now) == Some(TimestampFuture) <==> ts - now > 30_000_000_000
    ensures ValidateTimestamp(ts, maxAge, now) == Some(TimestampTooOld)
       <==> maxAge > 0 && now - ts > maxAge && ts - now <= 30_000_000_000
  {
  }

  /** The replay window in nanoseconds, an int64 product that wraps for more than 106751 days. */
  function ReplayWindow(days: int): int { GoTime.Wrap64(days * DAY) }

  function ValidateReplayTimestamp(ts: int, windowDays: int, now: int): Option<Fault> {
    if ts > now + SKEW then Some(TimestampFuture)
    else if ts < now + GoTime.Wrap64(-ReplayWindow(windowDays)) then Some(OutOfReplayWindow)
    else None
  }

  /** For every window a service would configure, a time is accepted exactly between the window's start and the skew. */
  lemma ReplayAcceptance(ts: int, windowDays: int, now: int)
    requires 0 <= windowDays <= 106_751
    ensures ValidateReplayTimestamp(ts, windowDays, now).None?
       <==> now - windowDays * 86_400_000_000_000 <= ts <= now + 30_000_000_000
    ensures ValidateReplayTimestamp(ts, windowDays, now) == Some(TimestampFuture) <==> ts > now + 30_000_000_000
    ensures ValidateReplayTimestamp(ts, windowDays, now).Some? ==>
      ValidateReplayTimestamp(ts, windowDays, now).value in {TimestampFuture, OutOfReplayWindow}
  {
  }

  /** One day more and the window wraps around: it begins in 292 years, and no time is accepted. */
  lemma ReplayWindowWraps(ts: int, now: int)
    ensures ValidateReplayTimestamp(ts, 106_752, now).Some?
  {
  }
}
