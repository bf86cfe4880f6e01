/** The plotting helpers of support/plots.py that decide rather than draw:
    the count-based dispatch of `flux_energy`, with its legend labels and
    title keys, and the title `make_title` assembles. */
module Plots {
  import opened Results
  import opened Text
  import opened Numbers
  import opened Cli
  import Interfaces
  import StreamFluxEnergy

  // ---------------------------------------------------------------------
  // flux_energy

  /** One entry of a resolved indexer: a step/shell index or a value in a unit. */
  datatype Coordinate = StepAt(step: int) | ValueAt(value: real, unit: string)

  /** `indexer[i]`. */
  function At(ix: Interfaces.Indexer, i: nat): (c: Coordinate)
    requires i < ix.Length()
    ensures c.StepAt? <==> ix.Indices?
    ensures ix.Indices? ==> c.step == ix.indices[i]
    ensures ix.Measurement? ==> c.value == ix.values[i] && c.unit == ix.unit
  {
    match ix
    case Indices(indices) => StepAt(indices[i])
    case Measurement(values, unit) => ValueAt(values[i], unit)
  }

  /** What `flux_energy` draws: one spectrum at a time and a location, or
      one labelled spectrum per time or per location; with the keys the
      title is made from. */
  datatype Figure =
    | OneLine(time: Coordinate, location: Coordinate, titleKeys: seq<string>)
    | Lines(labels: seq<string>, titleKeys: seq<string>)

  /** The legend label of the `i`-th location: `r = <value> <unit>`, the
      value shown to three decimals by `show3`, or `shell = <n>`. */
  function LocationLabel(locations: Interfaces.Indexer, i: nat, show3: real -> string): string
    requires i < locations.Length()
  {
    match locations
    case Measurement(values, unit) => "r = " + show3(values[i]) + " " + unit
    case Indices(indices) => "shell = " + IntToString(indices[i])
  }

  /** The legend label of the `i`-th time: `t = <value> <unit>`, the value
      shown to one decimal by `show1`, or `time step <n>`. */
  function TimeLabel(times: Interfaces.Indexer, i: nat, show1: real -> string): string
    requires i < times.Length()
  {
    match times
    case Measurement(values, unit) => "t = " + show1(values[i]) + " " + unit
    case Indices(indices) => "time step " + IntToString(indices[i])
  }

  /** The dispatch of `flux_energy` on the numbers of times and locations:
      both multi-valued is a `ValueError`; one time and several locations
      draw a line per location, titled by time and species; several times
      and one location draw a line per time, titled by location and
      species; anything else draws the single line at the first time and
      the first location, which is an `IndexError` when either is empty. */
  function FluxEnergy(times: Interfaces.Indexer, locations: Interfaces.Indexer,
                      show1: real -> string, show3: real -> string): (r: Result<Figure>)
    ensures r == Err(RuntimeValueError) <==> times.Length() > 1 && locations.Length() > 1
    ensures r == Err(IndexError) <==> times.Length() == 0 || locations.Length() == 0
    ensures r.Err? ==> r == Err(RuntimeValueError) || r == Err(IndexError)
    ensures r.Ok? && r.value.OneLine? <==> times.Length() == 1 && locations.Length() == 1
    ensures r.Ok? && r.value.OneLine? ==>
      r.value.time == At(times, 0) && r.value.location == At(locations, 0) &&
      r.value.titleKeys == ["time", "location", "species"]
    ensures times.Length() == 1 && locations.Length() > 1 ==>
      r.Ok? && r.value.Lines? && r.value.titleKeys == ["time", "species"] &&
      |r.value.labels| == locations.Length() &&
      forall i :: 0 <= i < locations.Length() ==> r.value.labels[i] == LocationLabel(locations, i, show3)
    ensures times.Length() > 1 && locations.Length() == 1 ==>
      r.Ok? && r.value.Lines? && r.value.titleKeys == ["location", "species"] &&
      |r.value.labels| == times.Length() &&
      forall i :: 0 <= i < times.Length() ==> r.value.labels[i] == TimeLabel(times, i, show1)
  {
    var ntimes, nlocations := times.Length(), locations.Length();
    if ntimes > 1 && nlocations > 1 then Err(RuntimeValueError)
    else if ntimes == 1 && nlocations > 1 then
      Ok(Lines(seq(nlocations, i requires 0 <= i < nlocations => LocationLabel(locations, i, show3)),
               ["time", "species"]))
    else if ntimes > 1 && nlocations == 1 then
      Ok(Lines(seq(ntimes, i requires 0 <= i < ntimes => TimeLabel(times, i, show1)),
               ["location", "species"]))
    else if ntimes == 0 || nlocations == 0 then Err(IndexError)
    else Ok(OneLine(At(times, 0), At(locations, 0), ["time", "location", "species"]))
  }

  /** Distinct shells, and distinct time steps, get distinct legend labels. */
  lemma IndexLabelsDistinct(ns: seq<int>, show: real -> string, i: nat, j: nat)
    requires i < |ns| && j < |ns| && ns[i] != ns[j]
    ensures LocationLabel(Interfaces.Indices(ns), i, show) != LocationLabel(Interfaces.Indices(ns), j, show)
    ensures TimeLabel(Interfaces.Indices(ns), i, show) != TimeLabel(Interfaces.Indices(ns), j, show)
  {
    PrefixedIntsDiffer("shell = ", ns[i], ns[j]);
    PrefixedIntsDiffer("time step ", ns[i], ns[j]);
  }

  /** The two copies of the dispatch compared. Wherever the copy in
      stream-flux-energy.py draws, this one draws the same kind of figure
      with as many lines; both reject two multi-valued counts; but a zero
      count, which that copy rejects with its own `ValueError`, is an
      `IndexError` here. */
  lemma DispatchCopiesCompared(times: Interfaces.Indexer, locations: Interfaces.Indexer,
                               show: real -> string, show1: real -> string, show3: real -> string)
    ensures var s := StreamFluxEnergy.StreamFlux(times, locations, show);
      var p := FluxEnergy(times, locations, show1, show3);
      (s == Ok(StreamFluxEnergy.Single) ==> p.Ok? && p.value.OneLine?) &&
      (s.Ok? && s.value.PerTime? ==> p.Ok? && p.value.Lines? && |p.value.labels| == |s.value.labels|) &&
      (s.Ok? && s.value.PerLocation? ==> p.Ok? && p.value.Lines? && |p.value.labels| == |s.value.labels|) &&
      (times.Length() > 1 && locations.Length() > 1 ==> s.Err? && p.Err? && p.error.ValueError?) &&
      (times.Length() == 0 || locations.Length() == 0 ==>
        s == Err(ValueError(StreamFluxEnergy.MULTI_VALUED)) && p == Err(IndexError))
  {
  }

  // ---------------------------------------------------------------------
  // make_title

  /** `get_location(user)` of the shared interfaces followed by its title
      part: the first resolved location, written `radius = <value> <unit>`
      (the value shown by `show`) or `shell = <n>`. */
  function LocationPart(user: map<string, Value>, show: real -> string): (r: Result<string>)
    ensures r.Ok? ==> StartsWith(r.value, "radius = ") || StartsWith(r.value, "shell = ")
    ensures !Get(user, "location").Null? && !Get(user, "location").Strs? ==> r == Err(TypeError)
    ensures Get(user, "location").Null? || Get(user, "location").Strs? ==>
      var ix := Interfaces.ComputeIndexer(AsTokens(Get(user, "location")).value);
      (ix.Err? ==> r == Err(ix.error)) &&
      (ix.Ok? && ix.value.Length() == 0 ==> r == Err(IndexError)) &&
      (ix.Ok? && ix.value.Indices? && |ix.value.indices| > 0 ==>
        r == Ok("shell = " + IntToString(ix.value.indices[0]))) &&
      (ix.Ok? && ix.value.Measurement? && |ix.value.values| > 0 ==>
        r == Ok("radius = " + show(ix.value.values[0]) + " " + ix.value.unit))
  {
    var tokens :- AsTokens(Get(user, "location"));
    var locations :- Interfaces.ComputeIndexer(tokens);
    if locations.Length() == 0 then Err(IndexError)
    else
      match locations
      case Measurement(values, unit) =>
        assert ("radius = " + show(values[0]) + " " + unit)[..9] == "radius = ";
        Ok("radius = " + show(values[0]) + " " + unit)
      case Indices(indices) =>
        assert ("shell = " + IntToString(indices[0]))[..8] == "shell = ";
        Ok("shell = " + IntToString(indices[0]))
  }

  /** `get_species(user)` followed by its title part: an integer indexes
      the stream's species names (negative from the end), a string is
      shown as given, anything else is a `TypeError`. */
  function SpeciesPart(user: map<string, Value>, names: seq<string>): (r: Result<string>)
    ensures r.Ok? ==> StartsWith(r.value, "species = ")
    ensures Interfaces.GetSpecies(user).Str? ==> r == Ok("species = " + Interfaces.GetSpecies(user).s)
    ensures Interfaces.GetSpecies(user).Int? ==>
      var j := PyIndex(Interfaces.GetSpecies(user).i, |names|);
      (r.Ok? <==> j.Some?) && (j.Some? ==> r.value == "species = " + names[j.value]) &&
      (r.Err? ==> r.error == IndexError)
    ensures !Interfaces.GetSpecies(user).Int? && !Interfaces.GetSpecies(user).Str? && !Interfaces.GetSpecies(user).Bool? ==>
      r == Err(TypeError)
  {
    var name :- match Interfaces.GetSpecies(user)
      case Int(i) => SpeciesName(i, names)
      case Bool(b) => SpeciesName(if b then 1 else 0, names)
      case Str(s) => Ok(s)
      case _ => Err(TypeError);
    assert ("species = " + name)[..10] == "species = ";
    Ok("species = " + name)
  }

  /** `stream.species.data[i]`. */
  function SpeciesName(i: int, names: seq<string>): (r: Result<string>)
    ensures r.Ok? <==> PyIndex(i, |names|).Some?
    ensures r.Err? ==> r.error == IndexError
  {
    match PyIndex(i, |names|)
    case Some(j) => Ok(names[j])
    case None => Err(IndexError)
  }

  /** The parts of the title, in the order time, location, species, each
      present only when its key is both asked for and in `user`. The time
      part calls `get_time`, which the shared interfaces do not define, so
      asking for it raises `AttributeError`. */
  function TitleParts(user: map<string, Value>, keys: seq<string>, names: seq<string>, show: real -> string): (r: Result<seq<string>>)
    ensures "time" in keys && "time" in user ==> r == Err(AttributeError("get_time"))
    ensures r.Ok? ==> |r.value| <= 2
  {
    if "time" in keys && "time" in user then Err(AttributeError("get_time"))
    else
      var location :- if "location" in keys && "location" in user then
        (match LocationPart(user, show) case Ok(p) => Ok([p]) case Err(e) => Err(e))
      else Ok([]);
      var species :- if "species" in keys && "species" in user then
        (match SpeciesPart(user, names) case Ok(p) => Ok([p]) case Err(e) => Err(e))
      else Ok([]);
      Ok(location + species)
  }

  /** The title is made of the parts asked for and given, in order: the
      location part first, the species part last. */
  lemma TitlePartsShape(user: map<string, Value>, keys: seq<string>, names: seq<string>, show: real -> string)
    requires TitleParts(user, keys, names, show).Ok?
    ensures var parts := TitleParts(user, keys, names, show).value;
      var hasLocation := "location" in keys && "location" in user;
      var hasSpecies := "species" in keys && "species" in user;
      !("time" in keys && "time" in user) &&
      |parts| == (if hasLocation then 1 else 0) + (if hasSpecies then 1 else 0) &&
      (hasLocation ==> StartsWith(parts[0], "radius = ") || StartsWith(parts[0], "shell = ")) &&
      (hasSpecies ==> StartsWith(parts[|parts| - 1], "species = "))
  {
  }

  /** `make_title(stream, user, keys)`: the parts collected one after the
      other into a list, then joined with `' | '`. */
  method MakeTitle(user: map<string, Value>, keys: seq<string>, names: seq<string>, show: real -> string)
    returns (r: Result<string>)
    ensures r.Ok? <==> TitleParts(user, keys, names, show).Ok?
    ensures r.Ok? ==> r.value == Join(TitleParts(user, keys, names, show).value, " | ")
    ensures r.Err? ==> r.error == TitleParts(user, keys, names, show).error
  {
    var parts: seq<string> := [];
    if "time" in keys && "time" in user {
      return Err(AttributeError("get_time"));
    }
    if "location" in keys && "location" in user {
      var part :- LocationPart(user, show);
      parts := parts + [part];
    }
    if "species" in keys && "species" in user {
      var part :- SpeciesPart(user, names);
      parts := parts + [part];
    }
    return Ok(Join(parts, " | "));
  }

  /** A location the user left unset (`None`) is index 0, so its title
      part is `shell = 0`. */
  lemma UnsetLocationIsShellZero(user: map<string, Value>, show: real -> string)
    requires "location" in user && user["location"] == Null
    ensures LocationPart(user, show) == Ok("shell = " + IntToString(0))
  {
  }

  /** A single shell written with `str()` is read back into its title part. */
  lemma ShellPartRoundTrip(user: map<string, Value>, n: int, show: real -> string)
    requires Get(user, "location") == Strs([IntToString(n)])
    ensures LocationPart(user, show) == Ok("shell = " + IntToString(n))
  {
    IntToStringRoundTrip(n);
  }

  /** With both a location and a species, the title is the two parts
      joined by `' | '`. */
  lemma TitleOfTwoParts(user: map<string, Value>, keys: seq<string>, names: seq<string>, show: real -> string)
    requires "time" !in keys && "location" in keys && "species" in keys
    requires "location" in user && "species" in user
    requires LocationPart(user, show).Ok? && SpeciesPart(user, names).Ok?
    ensures TitleParts(user, keys, names, show).Ok?
    ensures Join(TitleParts(user, keys, names, show).value, " | ") ==
            LocationPart(user, show).value + " | " + SpeciesPart(user, names).value
  {
    var loc, sp := LocationPart(user, show).value, SpeciesPart(user, names).value;
    assert TitleParts(user, keys, names, show).value == [loc] + [sp];
    JoinSnoc([loc], sp, " | ");
  }
}
