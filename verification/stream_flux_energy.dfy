/** How stream-flux-energy.py's `stream_flux` chooses what to draw from the
    numbers of requested times and locations, the legend labels it writes,
    and the units it merges from the user's options. Reading the flux and
    drawing are left out. */
module StreamFluxEnergy {
  import opened Results
  import opened Numbers
  import opened Cli
  import Interfaces
  import Observers

  /** The message of the one error the dispatch raises itself. */
  const MULTI_VALUED: string := "Either time or location, but not both, may be multi-valued"

  /** What is drawn: one spectrum, or one labelled spectrum per time or per
      location, in the order requested. */
  datatype Spectra = Single | PerTime(labels: seq<string>) | PerLocation(labels: seq<string>)

  /** The legend label of the `i`-th time: `t = <value> <unit>` for a
      measurement, `t = <step>` for a step index. `show` is Python's
      `str(float)`, whose digits are left out. */
  function TimeLabel(times: Interfaces.Indexer, i: nat, show: real -> string): string
    requires i < times.Length()
  {
    match times
    case Measurement(values, unit) => "t = " + show(values[i]) + " " + unit
    case Indices(indices) => "t = " + IntToString(indices[i])
  }

  /** The legend label of the `i`-th location: `r = <value> <unit>` for a
      measurement, `s = <shell>` for a shell index. */
  function LocationLabel(locations: Interfaces.Indexer, i: nat, show: real -> string): string
    requires i < locations.Length()
  {
    match locations
    case Measurement(values, unit) => "r = " + show(values[i]) + " " + unit
    case Indices(indices) => "s = " + IntToString(indices[i])
  }

  /** The count-based dispatch of `stream_flux`: exactly one time and one
      location draw one spectrum; several times at one location, or several
      locations at one time, draw one spectrum each; every other pair of
      counts, zero included, raises the `ValueError` above. */
  function StreamFlux(times: Interfaces.Indexer, locations: Interfaces.Indexer, show: real -> string): (r: Result<Spectra>)
    ensures r == Ok(Single) <==> times.Length() == 1 && locations.Length() == 1
    ensures (r.Ok? && r.value.PerTime?) <==> times.Length() > 1 && locations.Length() == 1
    ensures (r.Ok? && r.value.PerLocation?) <==> locations.Length() > 1 && times.Length() == 1
    ensures r.Err? ==> r.error == ValueError(MULTI_VALUED)
    ensures r.Ok? && r.value.PerTime? ==>
      |r.value.labels| == times.Length() &&
      forall i :: 0 <= i < times.Length() ==> r.value.labels[i] == TimeLabel(times, i, show)
    ensures r.Ok? && r.value.PerLocation? ==>
      |r.value.labels| == locations.Length() &&
      forall i :: 0 <= i < locations.Length() ==> r.value.labels[i] == LocationLabel(locations, i, show)
  {
    var ntimes, nlocations := times.Length(), locations.Length();
    if ntimes == 1 && nlocations == 1 then Ok(Single)
    else if ntimes > 1 && nlocations == 1 then
      Ok(PerTime(seq(ntimes, i requires 0 <= i < ntimes => TimeLabel(times, i, show))))
    else if nlocations > 1 && ntimes == 1 then
      Ok(PerLocation(seq(nlocations, i requires 0 <= i < nlocations => LocationLabel(locations, i, show))))
    else Err(ValueError(MULTI_VALUED))
  }

  /** Both counts multi-valued, or either count zero, is an error. */
  lemma StreamFluxRejects(times: Interfaces.Indexer, locations: Interfaces.Indexer, show: real -> string)
    ensures StreamFlux(times, locations, show).Err? <==>
      (times.Length() > 1 && locations.Length() > 1) || times.Length() == 0 || locations.Length() == 0
  {
  }

  /** Distinct time steps get distinct legend labels, so no two spectra of
      a step-indexed plot share a label. */
  lemma StepLabelsDistinct(steps: seq<int>, show: real -> string, i: nat, j: nat)
    requires i < |steps| && j < |steps| && steps[i] != steps[j]
    ensures TimeLabel(Interfaces.Indices(steps), i, show) != TimeLabel(Interfaces.Indices(steps), j, show)
  {
    PrefixedIntsDiffer("t = ", steps[i], steps[j]);
  }

  /** Distinct shells get distinct legend labels. */
  lemma ShellLabelsDistinct(shells: seq<int>, show: real -> string, i: nat, j: nat)
    requires i < |shells| && j < |shells| && shells[i] != shells[j]
    ensures LocationLabel(Interfaces.Indices(shells), i, show) != LocationLabel(Interfaces.Indices(shells), j, show)
  {
    PrefixedIntsDiffer("s = ", shells[i], shells[j]);
  }

  /** The units `stream_flux` uses: each default replaced by the user's
      `'<key>_unit'` value when that is truthy. */
  function Units(user: map<string, Value>): (r: map<string, Value>)
    ensures r.Keys == Observers.UNITS.Keys
    ensures forall k :: k in r ==> Truthy(r[k])
    ensures forall k :: k in r && Truthy(Get(user, k + "_unit")) ==> r[k] == Get(user, k + "_unit")
  {
    assert forall k :: k in Observers.UNITS ==> |Observers.UNITS[k]| > 0;
    map k | k in Observers.UNITS :: if Truthy(Get(user, k + "_unit")) then Get(user, k + "_unit") else Str(Observers.UNITS[k])
  }

  /** The merge gives the same units as `get_units` of the shared interfaces. */
  lemma UnitsMatchInterfaces(user: map<string, Value>)
    ensures Units(user) == Interfaces.GetUnits(user)
  {
    Observers.UnitsAgree();
  }
}
