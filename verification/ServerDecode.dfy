/** The ingestion service's reading of an SDK payload: deserialize_msgpack.go, deserialize.go and
    resolve_td_offsets.go. The k-th value of `f` is looked up under index k, where the SDK has put the k-th field
    that has a reading; and the payload's `ts` key is not one the parser knows, so offsets count from the
    server's clock. */
module ServerDecode {
  import opened Prelude
  import opened BatchSpec
  import GoTime

  /** One field of a channel's schema with its stored position. */
  datatype Entry = Entry(index: nat, name: string)

  datatype DecodeError =
    | EmptyFields
    | SchemaMismatch(current: nat)
    | UnknownFieldIndex(idx: nat)
    | TDInvalid(got: nat, fields: nat)

  /** The fields of one request with their values and absolute times. */
  datatype Input = Input(fields: map<string, Float64>, stamps: map<string, int>)

  const MAX_INDEX: nat := 8

  /** The schemas the registry serves: ordered by position, positions unique and from 1 to 8. They may have gaps. */
  predicate Registered(schema: seq<Entry>) {
    && Distinct(Names(schema))
    && (forall p :: 0 <= p < |schema| ==> 1 <= schema[p].index <= MAX_INDEX)
    && forall p, q :: 0 <= p < q < |schema| ==> schema[p].index < schema[q].index
  }

  function Names(schema: seq<Entry>): (names: seq<string>)
    ensures |names| == |schema| && forall p :: 0 <= p < |names| ==> names[p] == schema[p].name
  {
    seq(|schema|, p requires 0 <= p < |schema| => schema[p].name)
  }

  /** The name filed under an index; of equal indices the last one, as a map built in order keeps. */
  function NameAt(schema: seq<Entry>, idx: nat): (n: Option<string>)
    ensures n.Some? ==> Entry(idx, n.value) in schema
    ensures n.None? ==> forall p :: 0 <= p < |schema| ==> schema[p].index != idx
  {
    var k := |schema|;
    if k == 0 then None
    else if schema[k - 1].index == idx then Some(schema[k - 1].name)
    else NameAt(schema[..k - 1], idx)
  }

  /** The value the parser keeps for a field index: `uint8(i+1)` wraps, and a later entry overwrites. */
  function ValueAt(f: seq<Float64>, idx: nat): (v: Option<Float64>)
    requires 0 < idx <= MAX_INDEX
    ensures v.Some? <==> idx <= |f|
    ensures |f| < 256 && v.Some? ==> v.value == f[idx - 1]
  {
    var n := |f|;
    if n == 0 then None
    else if n % 256 == idx then Some(f[n - 1])
    else ValueAt(f[..n - 1], idx)
  }

  function Min(a: nat, b: nat): nat { if a <= b then a else b }

  /** Names paired with values, position by position; of equal names the last one stays. */
  function Zip<V>(names: seq<string>, vals: seq<V>): (m: map<string, V>)
    requires |vals| == |names|
    ensures m.Keys == set n | n in names
  {
    var k := |names|;
    if k == 0 then map[] else Zip(names[..k - 1], vals[..k - 1])[names[k - 1] := vals[k - 1]]
  }

  /** The instants some offsets stand for; no offsets at all stand for `n` zeros. */
  function Times(base: int, td: seq<nat>, n: nat): (ts: seq<int>)
    requires td == [] || |td| == n
    ensures |ts| == n
    ensures forall q :: 0 <= q < n ==> ts[q] == base + (if td == [] then 0 else td[q] * GoTime.MILLISECOND)
  {
    seq(n, q requires 0 <= q < n => base + (if td == [] then 0 else td[q] * GoTime.MILLISECOND))
  }

  /** The values of indices 1..k. */
  function Leading(f: seq<Float64>, k: nat): (vals: seq<Float64>)
    requires k <= Min(|f|, MAX_INDEX)
    ensures |vals| == k
  {
    seq(k, i requires 0 <= i < k => ValueAt(f, i + 1).value)
  }

  predicate KnownUpTo(schema: seq<Entry>, k: nat) {
    forall idx :: 1 <= idx <= k ==> NameAt(schema, idx).Some?
  }

  /** The names of indices 1..k. */
  function LeadingNames(schema: seq<Entry>, k: nat): (names: seq<string>)
    requires KnownUpTo(schema, k)
    ensures |names| == k && forall i :: 0 <= i < k ==> NameAt(schema, i + 1) == Some(names[i])
  {
    if k == 0 then [] else LeadingNames(schema, k - 1) + [NameAt(schema, k).value]
  }

  /** The least index up to `k` that the schema lacks, or k + 1. */
  function FirstGap(schema: seq<Entry>, k: nat): (g: nat)
    ensures 1 <= g <= k + 1 && KnownUpTo(schema, g - 1)
    ensures g <= k ==> NameAt(schema, g).None?
  {
    if k == 0 then 1
    else
      var g := FirstGap(schema, k - 1);
      if g < k || NameAt(schema, k).None? then g else k + 1
  }

  lemma FirstGapIs(schema: seq<Entry>, k: nat, idx: nat)
    requires 1 <= idx <= k + 1 && KnownUpTo(schema, idx - 1) && (idx <= k ==> NameAt(schema, idx).None?)
    ensures FirstGap(schema, k) == idx
  {
  }

  function View(p: Payload, schema: seq<Entry>, version: nat, now: int): Result<Input, DecodeError> {
    if p.f == [] then Err(EmptyFields)
    else if version != 0 && p.sv != 0 && p.sv != version then Err(SchemaMismatch(version))
    else
      var k := Min(|p.f|, MAX_INDEX);
      var g := FirstGap(schema, k);
      if g <= k then Err(UnknownFieldIndex(g))
      else if p.td != [] && |p.td| != k then Err(TDInvalid(|p.td|, k))
      else
        var names := LeadingNames(schema, k);
        Ok(Input(Zip(names, Leading(p.f, k)), Zip(names, Times(now, p.td, k))))
  }

  /** The map from index to name, filled in schema order. */
  method IndexToField(schema: seq<Entry>) returns (m: map<nat, string>)
    ensures forall idx: nat :: NameAt(schema, idx) == if idx in m then Some(m[idx]) else None
  {
    m := map[];
    for i := 0 to |schema|
      invariant forall idx: nat :: NameAt(schema[..i], idx) == if idx in m then Some(m[idx]) else None
    {
      assert schema[..i + 1][..i] == schema[..i];
      m := m[schema[i].index := schema[i].name];
    }
    assert schema[..|schema|] == schema;
  }

  method Deserialize(p: Payload, schema: seq<Entry>, version: nat, now: int) returns (r: Result<Input, DecodeError>)
    ensures r == View(p, schema, version, now)
  {
    if |p.f| == 0 { return Err(EmptyFields); }
    var fieldValues := Parse(p.f);
    if version != 0 && p.sv != 0 && p.sv != version { return Err(SchemaMismatch(version)); }
    var resolved := Resolve(fieldValues, schema, p.f);
    if resolved.Err? { return Err(resolved.error); }
    var (fieldNames, vals) := resolved.value;
    var stamps := ResolveOffsets(now, p.td, fieldNames);
    if stamps.Err? { return Err(stamps.error); }
    var fields := Collect(fieldNames, vals);
    return Ok(Input(fields, stamps.value));
  }

  /** The map holds what the parser keeps of `f` for the indices the server looks at. */
  ghost predicate Holds(fieldValues: map<nat, Float64>, f: seq<Float64>) {
    forall idx :: 0 < idx <= MAX_INDEX ==>
      && (idx in fieldValues <==> ValueAt(f, idx).Some?)
      && (idx in fieldValues ==> fieldValues[idx] == ValueAt(f, idx).value)
  }

  /** The loop over field indices: names and values in index order, up to the first index the schema lacks. */
  method Resolve(fieldValues: map<nat, Float64>, schema: seq<Entry>, ghost f: seq<Float64>)
    returns (r: Result<(seq<string>, seq<Float64>), DecodeError>)
    requires Holds(fieldValues, f)
    ensures var k := Min(|f|, MAX_INDEX); var g := FirstGap(schema, k);
      r == if g <= k then Err(UnknownFieldIndex(g)) else Ok((LeadingNames(schema, k), Leading(f, k)))
  {
    var indexToField := IndexToField(schema);
    var fieldNames: seq<string>, vals: seq<Float64> := [], [];
    for idx := 1 to MAX_INDEX + 1
      invariant var k := Min(|f|, idx - 1);
        KnownUpTo(schema, k) && fieldNames == LeadingNames(schema, k) && vals == Leading(f, k)
    {
      if idx in fieldValues {
        assert NameAt(schema, idx) == if idx in indexToField then Some(indexToField[idx]) else None;
        if idx !in indexToField {
          FirstGapIs(schema, Min(|f|, MAX_INDEX), idx);
          return Err(UnknownFieldIndex(idx));
        }
        fieldNames := fieldNames + [indexToField[idx]];
        vals := vals + [fieldValues[idx]];
      }
    }
    FirstGapIs(schema, Min(|f|, MAX_INDEX), Min(|f|, MAX_INDEX) + 1);
    return Ok((fieldNames, vals));
  }

  method Collect(fieldNames: seq<string>, vals: seq<Float64>) returns (fields: map<string, Float64>)
    requires |vals| == |fieldNames|
    ensures fields == Zip(fieldNames, vals)
  {
    fields := map[];
    for i := 0 to |fieldNames|
      invariant fields == Zip(fieldNames[..i], vals[..i])
    {
      assert fieldNames[..i + 1][..i] == fieldNames[..i] && vals[..i + 1][..i] == vals[..i];
      fields := fields[fieldNames[i] := vals[i]];
    }
    assert fieldNames[..|fieldNames|] == fieldNames && vals[..|fieldNames|] == vals;
  }

  /** `Parse`: the map from field index to value, filled in array order. */
  method Parse(f: seq<Float64>) returns (fieldValues: map<nat, Float64>)
    ensures Holds(fieldValues, f)
  {
    fieldValues := map[];
    for i := 0 to |f|
      invariant Holds(fieldValues, f[..i])
    {
      assert f[..i + 1][..i] == f[..i];
      fieldValues := fieldValues[(i + 1) % 256 := f[i]];
    }
    assert f[..|f|] == f;
  }

  /** Without offsets every field has the base time; otherwise there must be one for each, and later equal names win. */
  method ResolveOffsets(base: int, td: seq<nat>, fieldNames: seq<string>)
    returns (r: Result<map<string, int>, DecodeError>)
    ensures td != [] && |td| != |fieldNames| ==> r == Err(TDInvalid(|td|, |fieldNames|))
    ensures td == [] || |td| == |fieldNames| ==> r == Ok(Zip(fieldNames, Times(base, td, |fieldNames|)))
  {
    if |td| != 0 && |td| != |fieldNames| { return Err(TDInvalid(|td|, |fieldNames|)); }
    ghost var ts := Times(base, td, |fieldNames|);
    var result: map<string, int> := map[];
    for i := 0 to |fieldNames|
      invariant result == Zip(fieldNames[..i], ts[..i])
    {
      assert fieldNames[..i + 1][..i] == fieldNames[..i] && ts[..i + 1][..i] == ts[..i];
      result := result[fieldNames[i] := if |td| == 0 then base else base + td[i] * GoTime.MILLISECOND];
    }
    assert fieldNames[..|fieldNames|] == fieldNames && ts[..|fieldNames|] == ts;
    return Ok(result);
  }
}
