/** The coordinate resolvers of flux-energy.py: how the `--time`, `--shell`
    and `--radius` options become a time index, shell indices and radii.
    A missing option arrives as an explicit `None` and is treated as absent. */
module FluxEnergy {
  import opened Results
  import opened Numbers
  import opened Cli
  import Interfaces

  /** What `get_time` returns: a time step, or the pair `(float, unit)`. */
  datatype TimeIndex = Step(step: int) | ValueUnit(value: real, unit: string)

  /** `get_time(user)`: no time is step 0; one token is an integer step; two
      tokens are a float and its unit; any other count is a `ValueError`. */
  function GetTime(user: map<string, Value>): (r: Result<TimeIndex>)
    ensures Get(user, "time") == Null ==> r == Ok(Step(0))
    ensures !Get(user, "time").Null? && !Get(user, "time").Strs? ==> r == Err(TypeError)
    ensures Get(user, "time").Strs? ==>
      var t := Get(user, "time").items;
      (|t| == 1 ==> (r.Ok? <==> IsIntToken(t[0])) && (r.Ok? ==> r.value == Step(ToInt(t[0]).value))) &&
      (|t| == 2 ==> (r.Ok? <==> IsFloatToken(t[0])) && (r.Ok? ==> r.value == ValueUnit(ToFloat(t[0]).value, t[1]))) &&
      (|t| != 1 && |t| != 2 ==> r.Err?) &&
      (r.Err? ==> r.error.ValueError?)
  {
    var time :- AsTokens(Get(user, "time"));
    match time
    case None => Ok(Step(0))
    case Some(t) =>
      if |t| == 1 then
        (match ToInt(t[0])
         case Some(n) => Ok(Step(n))
         case None => Err(RuntimeValueError))
      else if |t| == 2 then
        (match ToFloat(t[0])
         case Some(x) => Ok(ValueUnit(x, t[1]))
         case None => Err(RuntimeValueError))
      else Err(ValueError("time"))
  }

  /** A single time token is read the same way `compute_indexer` reads it:
      as one step, or a `ValueError` for both. */
  lemma GetTimeAgreesWithIndexer(user: map<string, Value>)
    requires Get(user, "time").Strs? && |Get(user, "time").items| == 1
    ensures GetTime(user).Ok? <==> Interfaces.ComputeIndexer(Some(Get(user, "time").items)).Ok?
    ensures GetTime(user).Ok? ==>
      Interfaces.ComputeIndexer(Some(Get(user, "time").items)).value == Interfaces.Indices([GetTime(user).value.step])
  {
  }

  /** `get_shell(user)`: no shells is `()`, otherwise the given shells in
      the given order. */
  function GetShell(user: map<string, Value>): (r: Result<seq<int>>)
    ensures Get(user, "shell") == Null ==> r == Ok([])
    ensures Get(user, "shell").Ints? ==> r == Ok(Get(user, "shell").ints)
    ensures r.Err? <==> !Get(user, "shell").Null? && !Get(user, "shell").Ints?
  {
    match Get(user, "shell")
    case Null => Ok([])
    case Ints(shell) => Ok(shell)
    case _ => Err(TypeError)
  }

  /** What `get_radius` returns: nothing (`()`), tokens measured in au, or
      values measured in a unit of their own (converted to au, which is left
      out). */
  datatype Radius = NoRadius | Au(tokens: seq<string>) | Converted(values: seq<real>, unit: string)

  /** `get_radius(user)`: a lone token is in au; otherwise, when the last
      token is not a float it is the unit of the floats before it, and when
      it is a float every token is in au. An empty list has no last token. */
  function GetRadius(user: map<string, Value>): (r: Result<Radius>)
    ensures Get(user, "radius") == Null ==> r == Ok(NoRadius)
    ensures !Get(user, "radius").Null? && !Get(user, "radius").Strs? ==> r == Err(TypeError)
    ensures Get(user, "radius").Strs? ==>
      var a := Get(user, "radius").items;
      (|a| == 0 ==> r == Err(IndexError)) &&
      (|a| == 1 ==> r == Ok(Au(a))) &&
      (|a| >= 2 && IsFloatToken(a[|a| - 1]) ==> r == Ok(Au(a))) &&
      (|a| >= 2 && !IsFloatToken(a[|a| - 1]) ==>
        (r.Ok? <==> Interfaces.AllFloats(a[..|a| - 1])) &&
        (r.Ok? ==> r.value.Converted? && r.value.unit == a[|a| - 1] &&
                   |r.value.values| == |a| - 1 &&
                   forall i :: 0 <= i < |a| - 1 ==> Some(r.value.values[i]) == ToFloat(a[i])) &&
        (r.Err? ==> r.error == RuntimeValueError))
  {
    var radius :- AsTokens(Get(user, "radius"));
    match radius
    case None => Ok(NoRadius)
    case Some(a) => RadiusOf(a)
  }

  /** The radius a given list of tokens names. */
  function RadiusOf(a: seq<string>): Result<Radius> {
    if |a| == 1 then Ok(Au(a))
    else if |a| == 0 then Err(IndexError)
    else if IsFloatToken(a[|a| - 1]) then Ok(Au(a))
    else if Interfaces.AllFloats(a[..|a| - 1]) then
      Ok(Converted(Interfaces.FloatsOf(a[..|a| - 1]), a[|a| - 1]))
    else Err(RuntimeValueError)
  }

  /** Where `get_radius` takes a unit from the last token, it reads the same
      values and unit as `compute_indexer` does, and fails where it fails. */
  lemma RadiusAgreesWithIndexer(user: map<string, Value>, a: seq<string>)
    requires Get(user, "radius") == Strs(a)
    requires |a| >= 2 && !IsFloatToken(a[|a| - 1])
    ensures var r := GetRadius(user);
      var m := Interfaces.ComputeIndexer(Some(a));
      (r.Ok? <==> m.Ok?) &&
      (r.Ok? ==> m.Ok? && m.value == Interfaces.Measurement(r.value.values, r.value.unit))
  {
    IntTokenIsFloatToken(a[|a| - 1]);
    assert !Interfaces.AllInts(a) by { assert !IsIntToken(a[|a| - 1]); }
    RadiusWithUnit(user, a);
    Interfaces.IndexerWithUnit(a);
  }

  /** A radius list whose last token is not a float is the floats before
      it in the unit it names, or an error. */
  lemma RadiusWithUnit(user: map<string, Value>, a: seq<string>)
    requires Get(user, "radius") == Strs(a)
    requires |a| >= 2 && !IsFloatToken(a[|a| - 1])
    ensures GetRadius(user) ==
      if Interfaces.AllFloats(a[..|a| - 1]) then Ok(Converted(Interfaces.FloatsOf(a[..|a| - 1]), a[|a| - 1]))
      else Err(RuntimeValueError)
  {
    assert GetRadius(user) == RadiusOf(a);
  }

  /** Radii whose last token is a float and radii whose last token is a
      unit are told apart by that token alone: every float token is kept as
      an au token, every value before a unit is converted. */
  lemma RadiusUnitDecision(user: map<string, Value>, values: seq<string>, last: string)
    requires Get(user, "radius") == Strs(values + [last])
    requires |values| >= 1 && Interfaces.AllFloats(values)
    ensures IsFloatToken(last) ==> GetRadius(user) == Ok(Au(values + [last]))
    ensures !IsFloatToken(last) ==> GetRadius(user) == Ok(Converted(Interfaces.FloatsOf(values), last))
  {
    var a := values + [last];
    assert GetRadius(user) == RadiusOf(a);
    assert a[..|a| - 1] == values;
    assert a[|a| - 1] == last;
  }
}
