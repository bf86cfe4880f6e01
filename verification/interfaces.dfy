/** Command-line support shared by the analysis programs (support/interfaces.py):
    the indexer resolver, stream-ID conversion, key/value parsers, the species
    default and the default units. */
module Interfaces {
  import opened Results
  import opened Text
  import opened Numbers
  import opened Cli
  import opened Dicts

  /** An indexer argument, resolved: raw step/shell indices, or physical
      values in a unit (the measurement `quantity.measure` builds). */
  datatype Indexer = Indices(indices: seq<int>) | Measurement(values: seq<real>, unit: string) {
    /** `len()` of the resolved indexer. */
    function Length(): nat {
      match this
      case Indices(indices) => |indices|
      case Measurement(values, _) => |values|
    }
  }

  predicate AllInts(args: seq<string>) {
    forall i :: 0 <= i < |args| ==> IsIntToken(args[i])
  }

  predicate AllFloats(args: seq<string>) {
    forall i :: 0 <= i < |args| ==> IsFloatToken(args[i])
  }

  /** `[int(arg) for arg in args]`, for tokens that all parse. */
  function IntsOf(args: seq<string>): (r: seq<int>)
    requires AllInts(args)
    ensures |r| == |args| && forall i :: 0 <= i < |args| ==> Some(r[i]) == ToInt(args[i])
  {
    seq(|args|, i requires 0 <= i < |args| => ToInt(args[i]).value)
  }

  /** `[float(arg) for arg in args]`, for tokens that all parse. */
  function FloatsOf(args: seq<string>): (r: seq<real>)
    requires AllFloats(args)
    ensures |r| == |args| && forall i :: 0 <= i < |args| ==> Some(r[i]) == ToFloat(args[i])
  {
    seq(|args|, i requires 0 <= i < |args| => ToFloat(args[i]).value)
  }

  /** `compute_indexer(args)`: `None` gives index 0; a lone token must be an
      integer (no unit fallback); tokens that are all integers are indices;
      otherwise the last token is the unit and every other token must be a
      float. The decision is syntactic only. */
  function ComputeIndexer(args: Option<seq<string>>): (r: Result<Indexer>)
    ensures args.None? ==> r == Ok(Indices([0]))
    ensures args.Some? && |args.value| == 1 ==>
      (r.Ok? <==> IsIntToken(args.value[0])) &&
      (r.Ok? ==> r.value == Indices([ToInt(args.value[0]).value]))
    ensures args.Some? && AllInts(args.value) ==>
      r.Ok? && r.value.Indices? && |r.value.indices| == |args.value| &&
      forall i :: 0 <= i < |args.value| ==> Some(r.value.indices[i]) == ToInt(args.value[i])
    ensures args.Some? && |args.value| >= 2 && !AllInts(args.value) ==>
      var a := args.value;
      (r.Ok? <==> AllFloats(a[..|a| - 1])) &&
      (r.Ok? ==> r.value.Measurement? && r.value.unit == a[|a| - 1] &&
                 |r.value.values| == |a| - 1 &&
                 forall i :: 0 <= i < |a| - 1 ==> Some(r.value.values[i]) == ToFloat(a[i]))
    ensures r.Err? ==> r.error == RuntimeValueError
  {
    match args
    case None => Ok(Indices([0]))
    case Some(a) =>
      if |a| == 1 then
        (match ToInt(a[0])
         case Some(n) => Ok(Indices([n]))
         case None => Err(RuntimeValueError))
      else if AllInts(a) then Ok(Indices(IntsOf(a)))
      else if AllFloats(a[..|a| - 1]) then Ok(Measurement(FloatsOf(a[..|a| - 1]), a[|a| - 1]))
      else Err(RuntimeValueError)
  }

  /** Several tokens that are not all integers are the floats before the
      last token in the unit it names, or an error. */
  lemma IndexerWithUnit(a: seq<string>)
    requires |a| >= 2 && !AllInts(a)
    ensures ComputeIndexer(Some(a)) ==
      if AllFloats(a[..|a| - 1]) then Ok(Measurement(FloatsOf(a[..|a| - 1]), a[|a| - 1]))
      else Err(RuntimeValueError)
  {
  }

  /** The tokens `str(i)` of some indices. */
  function IndexTokens(indices: seq<int>): (r: seq<string>)
    ensures |r| == |indices|
  {
    seq(|indices|, i requires 0 <= i < |indices| => IntToString(indices[i]))
  }

  /** Indices written out with `str()` are read back as the same indices,
      for any number of them (none gives `()`, not `(0,)`). */
  lemma IndicesRoundTrip(indices: seq<int>)
    ensures ComputeIndexer(Some(IndexTokens(indices))) == Ok(Indices(indices))
  {
    var toks := IndexTokens(indices);
    forall i | 0 <= i < |toks| ensures ToInt(toks[i]) == Some(indices[i]) {
      IntToStringRoundTrip(indices[i]);
    }
    assert AllInts(toks);
    var r := ComputeIndexer(Some(toks));
    assert r.value.indices == indices;
  }

  /** Float tokens followed by a unit that is not an integer token are read
      as a measurement in that unit. */
  lemma MeasurementClassified(values: seq<string>, unit: string)
    requires |values| >= 1 && AllFloats(values) && !IsIntToken(unit)
    ensures ComputeIndexer(Some(values + [unit])).Ok?
    ensures ComputeIndexer(Some(values + [unit])).value ==
            Measurement(FloatsOf(values), unit)
  {
    var a := values + [unit];
    assert a[..|a| - 1] == values;
    assert !IsIntToken(a[|a| - 1]);
    assert !AllInts(a);
  }

  // ---------------------------------------------------------------------
  // ConvertStreamIDs

  /** A stream ID from the CLI: an integer where the token is one, else the
      token itself. */
  datatype StreamId = Id(n: int) | Name(s: string)

  /** `ConvertStreamIDs.__call__`: the list of converted values, same length
      and order as the tokens. */
  method ConvertStreamIds(values: seq<string>) returns (target: seq<StreamId>)
    ensures |target| == |values|
    ensures forall i :: 0 <= i < |values| ==>
      target[i] == (if IsIntToken(values[i]) then Id(ToInt(values[i]).value) else Name(values[i]))
  {
    target := [];
    for i := 0 to |values|
      invariant |target| == i
      invariant forall j :: 0 <= j < i ==>
        target[j] == (if IsIntToken(values[j]) then Id(ToInt(values[j]).value) else Name(values[j]))
    {
      match ToInt(values[i]) {
        case Some(n) => target := target + [Id(n)];
        case None => target := target + [Name(values[i])];
      }
    }
  }

  // ---------------------------------------------------------------------
  // split_key_value_pairs

  /** A `'k=v'` token splits on `'='` into exactly two fields and its value
      converts. */
  predicate ValidPair<V>(pair: string, convert: string -> Option<V>) {
    var kv := Split(pair, '=');
    |kv| == 2 && convert(kv[1]).Some?
  }

  /** The assignment `target[k] = dest_type(v)` made for a valid token. */
  function PairOf<V>(pair: string, convert: string -> Option<V>): (string, V)
    requires ValidPair(pair, convert)
  {
    var kv := Split(pair, '=');
    (kv[0], convert(kv[1]).value)
  }

  /** `split_key_value_pairs(pairs, dest_type)`. `convert` is `dest_type`
      (`Some` of the value for `str`/no type); the key is not stripped; a token
      with no `'='` or more than one, or a value that does not convert, raises
      `ValueError`; a later duplicate key overwrites an earlier one. */
  method SplitKeyValuePairs<V>(pairs: seq<string>, convert: string -> Option<V>)
    returns (r: Result<map<string, V>>)
    ensures r.Ok? <==> forall i :: 0 <= i < |pairs| ==> ValidPair(pairs[i], convert)
    ensures r.Ok? ==> r.value == Assign(seq(|pairs|, i requires 0 <= i < |pairs| && ValidPair(pairs[i], convert) => PairOf(pairs[i], convert)))
    ensures r.Err? ==> r.error == RuntimeValueError
  {
    var target: map<string, V> := map[];
    ghost var made: seq<(string, V)> := [];
    for i := 0 to |pairs|
      invariant forall j :: 0 <= j < i ==> ValidPair(pairs[j], convert)
      invariant |made| == i
      invariant forall j :: 0 <= j < i ==> made[j] == PairOf(pairs[j], convert)
      invariant target == Assign(made)
    {
      var kv := Split(pairs[i], '=');
      if |kv| != 2 {
        return Err(RuntimeValueError);
      }
      var v := convert(kv[1]);
      if v.None? {
        return Err(RuntimeValueError);
      }
      AssignSnoc(made, (kv[0], v.value));
      target := target[kv[0] := v.value];
      made := made + [(kv[0], v.value)];
    }
    assert made == seq(|pairs|, i requires 0 <= i < |pairs| && ValidPair(pairs[i], convert) => PairOf(pairs[i], convert));
    return Ok(target);
  }

  // ---------------------------------------------------------------------
  // parse_plot_kws (also tools/graphics.py)

  /** A comma segment can be indexed at `[1]` after splitting on `'='`. */
  predicate HasValue(segment: string) {
    |Split(segment, '=')| >= 2
  }

  predicate AllHaveValues(segments: seq<string>) {
    forall i :: 0 <= i < |segments| ==> HasValue(segments[i])
  }

  /** The assignment a segment makes: its stripped first `'='`-field as the
      key, the raw second field as the value; further fields are ignored. */
  function KwOf(segment: string): (string, string)
    requires HasValue(segment)
  {
    var f := Split(segment, '=');
    (Strip(f[0]), f[1])
  }

  /** The assignments made by the segments of a non-empty string, in order. */
  function KwAssignments(segments: seq<string>): (r: seq<(string, string)>)
    requires AllHaveValues(segments)
    ensures |r| == |segments|
    ensures forall i :: 0 <= i < |segments| ==> r[i] == KwOf(segments[i])
  {
    seq(|segments|, i requires 0 <= i < |segments| => KwOf(segments[i]))
  }

  /** The dictionary the comma segments of a non-empty string make, or
      `IndexError` at the first segment without an `'='`. */
  method AssignSegments(segments: seq<string>) returns (r: Result<map<string, string>>)
    ensures r.Ok? <==> AllHaveValues(segments)
    ensures r.Ok? ==> r.value == Assign(KwAssignments(segments))
    ensures r.Err? ==> r.error == IndexError
  {
    var result: map<string, string> := map[];
    ghost var made: seq<(string, string)> := [];
    for i := 0 to |segments|
      invariant forall j :: 0 <= j < i ==> HasValue(segments[j])
      invariant |made| == i
      invariant forall j :: 0 <= j < i ==> made[j] == KwOf(segments[j])
      invariant result == Assign(made)
    {
      var f := Split(segments[i], '=');
      if |f| < 2 {
        return Err(IndexError);
      }
      var kw := (Strip(f[0]), f[1]);
      AssignSnoc(made, kw);
      result := result[kw.0 := kw.1];
      made := made + [kw];
    }
    assert made == KwAssignments(segments);
    return Ok(result);
  }

  /** `parse_plot_kws(string)`: `None` or `''` gives `{}`; otherwise every
      comma segment must contain an `'='` (else `IndexError`) and the result
      is the dictionary of their assignments, later keys overwriting earlier. */
  method ParsePlotKws(s: Option<string>) returns (r: Result<map<string, string>>)
    ensures (s.None? || s.value == "") ==> r == Ok(map[])
    ensures s.Some? && s.value != "" ==>
      (r.Ok? <==> AllHaveValues(Split(s.value, ','))) &&
      (r.Ok? ==> r.value == Assign(KwAssignments(Split(s.value, ',')))) &&
      (r.Err? ==> r.error == IndexError)
  {
    if s.None? || s.value == "" {
      return Ok(map[]);
    }
    r := AssignSegments(Split(s.value, ','));
  }

  // ---------------------------------------------------------------------
  // get_species, get_units, UNITS

  /** `get_species(user)`: the user's value whenever it is not `None`
      (so `0` and `'0'` are kept), else species index 0. */
  function GetSpecies(user: map<string, Value>): (r: Value)
    ensures r != Null
    ensures Get(user, "species") != Null ==> r == Get(user, "species")
    ensures Get(user, "species") == Null ==> r == Int(0)
  {
    var species := Get(user, "species");
    if species != Null then species else Int(0)
  }

  /** Default units for observable quantities (`UNITS`; the same five
      entries in support/observers.py). */
  const UNITS: map<string, string> := map[
    "time" := "hour",
    "energy" := "MeV",
    "flux" := "1 / (cm^2 s sr MeV/nuc)",
    "fluence" := "1 / (cm^2 sr MeV/nuc)",
    "integral flux" := "1 / (cm^2 s sr)"
  ]

  /** `get_units(user)`: exactly the `UNITS` keys, each mapped to the user's
      `'<key>_unit'` value when that is truthy (an empty string falls back). */
  function GetUnits(user: map<string, Value>): (r: map<string, Value>)
    ensures r.Keys == UNITS.Keys
    ensures forall k :: k in UNITS ==>
      r[k] == (if Truthy(Get(user, k + "_unit")) then Get(user, k + "_unit") else Str(UNITS[k]))
  {
    map k | k in UNITS :: if Truthy(Get(user, k + "_unit")) then Get(user, k + "_unit") else Str(UNITS[k])
  }

  /** With no unit options set, or only empty ones, every unit is its default. */
  lemma DefaultUnits(user: map<string, Value>)
    requires forall k :: k in UNITS ==> !Truthy(Get(user, k + "_unit"))
    ensures GetUnits(user) == map k | k in UNITS :: Str(UNITS[k])
  {
  }

  /** There are five default units. */
  lemma UnitCount()
    ensures |UNITS| == 5
  {
    assert "flux"[3] != "fluence"[3];
    assert UNITS.Keys == {"time", "energy", "flux", "fluence", "integral flux"};
  }
}
