/** The single-location resolver of the observer programs
    (support/observers.py), and its copy of the default units. */
module Observers {
  import opened Results
  import opened Numbers
  import opened Cli
  import Interfaces

  /** What `get_location` returns: the user's shell value as given, or a
      radius built from a value and its unit (converted to au, which is
      left out). */
  datatype Location = AsGiven(shell: Value) | Radius(value: real, unit: string)

  /** `get_location(user)`: a shell that is not `None` wins, even `0`;
      otherwise a non-empty radius list gives `float(radius[0])` in unit
      `radius[1]`; otherwise `0`. */
  function GetLocation(user: map<string, Value>): (r: Result<Location>)
    ensures Get(user, "shell") != Null ==> r == Ok(AsGiven(Get(user, "shell")))
    ensures Get(user, "shell") == Null && !Truthy(Get(user, "radius")) ==> r == Ok(AsGiven(Int(0)))
    ensures Get(user, "shell") == Null && Truthy(Get(user, "radius")) ==>
      match Get(user, "radius")
      case Strs(a) =>
        (r.Ok? <==> IsFloatToken(a[0]) && |a| >= 2) &&
        (!IsFloatToken(a[0]) ==> r == Err(RuntimeValueError)) &&
        (IsFloatToken(a[0]) && |a| < 2 ==> r == Err(IndexError)) &&
        (r.Ok? ==> r.value == Radius(ToFloat(a[0]).value, a[1]))
      case _ => r == Err(TypeError)
  {
    var shell := Get(user, "shell");
    if shell != Null then Ok(AsGiven(shell))
    else
      var radius := Get(user, "radius");
      if Truthy(radius) then
        match radius
        case Strs(a) =>
          (match ToFloat(a[0])
           case None => Err(RuntimeValueError)
           case Some(x) => if |a| < 2 then Err(IndexError) else Ok(Radius(x, a[1])))
        case _ => Err(TypeError)
      else Ok(AsGiven(Int(0)))
  }

  /** Tokens after the unit play no part in the radius. */
  lemma ExtraRadiusTokensIgnored(user: map<string, Value>, value: string, unit: string, rest: seq<string>)
    requires Get(user, "shell") == Null
    ensures GetLocation(user["radius" := Strs([value, unit] + rest)]) ==
            GetLocation(user["radius" := Strs([value, unit])])
  {
    var long := user["radius" := Strs([value, unit] + rest)];
    var short := user["radius" := Strs([value, unit])];
    assert Get(long, "shell") == Get(user, "shell");
    assert Get(short, "shell") == Get(user, "shell");
    assert Get(long, "radius") == Strs([value, unit] + rest);
    assert ([value, unit] + rest)[0] == value && ([value, unit] + rest)[1] == unit;
  }

  /** Default units for observable quantities (`UNITS`). */
  const UNITS: map<string, string> := map[
    "time" := "hour",
    "energy" := "MeV",
    "flux" := "1 / (cm^2 s sr MeV/nuc)",
    "fluence" := "1 / (cm^2 sr MeV/nuc)",
    "integral flux" := "1 / (cm^2 s sr)"
  ]

  /** The observer programs and the shared interfaces agree on every
      default unit, and there are five of them. */
  lemma UnitsAgree()
    ensures |UNITS| == 5
    ensures UNITS == Interfaces.UNITS
  {
    Interfaces.UnitCount();
  }
}
