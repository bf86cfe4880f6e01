# EPREM analysis scripts: the deciding core, in Dafny

The EPREM analysis scripts read simulation output and draw it. Underneath
the drawing sit a handful of small rules that decide what is drawn and how
text is read and written. This project models those rules and proves what
they promise:

- the command-line resolvers that turn token lists into step/shell indices,
  measurements or errors (`compute_indexer`, `get_time`, `get_shell`,
  `get_radius`, `get_location`, `get_species`, `get_units`,
  `ConvertStreamIDs`);
- the `k=v` parsers (`split_key_value_pairs`, `parse_plot_kws`, which also
  has a copy in tools/graphics.py);
- the node-history header: written by `build_header`, read back by
  `parse_history` (node.py) and its copy `parse_node_history`
  (plot-node-history.py), and used for axis labels;
- the diagonal (time, shell) walk of `compute`, and the text of the
  history file;
- elapsed-time strings (`split_dhms`, `format_elapsed_time`);
- the count-based plot dispatch of `stream_flux` and `flux_energy`, and
  `make_title`;
- in streams3D.py:
  - `parse_stream_ids`;
  - `_periodic_resize`;
  - `build_marker`;
  - panel properties (`PanelProperties.__getattr__`/`_find`);
  - a panel's shared colour scale (`global_value`, the `cmin`/`cmid`/`cmax`
    properties, `set_cmin_cmax`, `set_global_colorscale`).

One module per source file:

| module | file |
|---|---|
| `Interfaces` | support/interfaces.py |
| `Observers` | support/observers.py |
| `FluxEnergy` | flux-energy.py |
| `StreamFluxEnergy` | stream-flux-energy.py |
| `Plots` | support/plots.py |
| `Labels` | support/labels.py |
| `NodeHistory` | node.py and plot-node-history.py |
| `WriteNodeHistory` | write-node-history.py |
| `Streams3D` | value-level rules of streams3D.py |
| `Panels` | panel classes of streams3D.py |

Four modules hold the Python behaviour the rest relies on:

- `Results`: `Result`/`Option`, and the Python exceptions as errors.
- `Cli`: the values in an argparse dictionary.
- `Text`: `split`, `strip`, `join`.
- `Numbers`: the `int()`/`float()` grammar, `str(int)`, `round`, and
  Python indexing.

`Dicts` models a dictionary filled by successive assignments.

Where the code works by changing things, the model does too:

- `ConvertStreamIds`, `SplitKeyValuePairs`, `AssignSegments`,
  `FillInfo`, `BuildHeader` and `MakeTitle` are methods with loops or
  successive updates. Each is proved against a specification function.
- `PanelProperties`, `Panel` and `Element` are classes whose methods update
  their fields and the marker dictionaries in place.

`compute_indexer([])` gives `()`, not `(0,)`: `len([]) != 1` and every
token of the empty list is an integer (support/interfaces.py:155-163).
The model follows the code.

## Model

| member | source | states |
|---|---|---|
| Interfaces.ComputeIndexer | support/interfaces.py:151-163 | `None` gives index 0. A lone token must be an integer: there is no unit fallback, and otherwise `ValueError`. Tokens that are all integers give the same integers in order. Otherwise the last token is the unit and the others must be floats, or `ValueError`. |
| Interfaces.IndexerWithUnit | support/interfaces.py:157-162 | Several tokens that are not all integers read as the floats before the last token, in the unit it names, or as `ValueError`. |
| Interfaces.IndicesRoundTrip | support/interfaces.py:155-163 | Any list of indices written with `str()` reads back as the same indices. The empty list gives `()`. |
| Interfaces.MeasurementClassified | support/interfaces.py:159-162 | Float tokens followed by a non-integer token form a measurement in that unit. The choice is syntactic. |
| Interfaces.IntsOf | support/interfaces.py:158 | `[int(a) for a in args]`: same length, and each element is the token's integer. |
| Interfaces.FloatsOf | support/interfaces.py:161 | `[float(a) for a in args]`: same length, and each element is the token's float. |
| Interfaces.ConvertStreamIds | support/interfaces.py:25-32 | The loop keeps length and order. Each entry is `int(v)` where the token parses, else the token itself. |
| Interfaces.SplitKeyValuePairs | support/interfaces.py:63-74 | Succeeds exactly when every token has one `'='` and its value converts; otherwise `ValueError`. The result is the dictionary of the assignments: the unstripped key maps to `dest_type(value)`, and a later key wins. |
| Interfaces.KwAssignments | support/interfaces.py:83-85 | Each segment assigns its stripped first `'='`-field to its raw second field, in order. |
| Interfaces.AssignSegments | support/interfaces.py:82-86 | The loop succeeds exactly when every segment has an `'='`; otherwise `IndexError`. The result is the dictionary of the segments' assignments. |
| Interfaces.ParsePlotKws | support/interfaces.py:77-86 | `None` or `''` gives `{}`. Otherwise it gives the dictionary of the comma segments' assignments, or `IndexError` for a segment without `'='`. The copy in tools/graphics.py (lines 8-17) is the same function. |
| Dicts.AssignKeys | support/interfaces.py:73 | A filled dictionary has exactly the keys assigned. |
| Dicts.AssignLastWins | support/interfaces.py:73 | A key's value is the one from its last assignment. |
| Dicts.AssignSize | tools/graphics.py:14-16 | A filled dictionary has no more keys than there were assignments, so no more keys than segments. |
| Interfaces.GetSpecies | support/interfaces.py:166-171 | Never `None`. The user's value is kept whenever it is not `None`, including `0` and `'0'`; otherwise the result is 0. support/observers.py:30-35 is the same rule. |
| Interfaces.GetUnits | support/interfaces.py:174-176 | Exactly the `UNITS` keys. Each maps to the user's `'<key>_unit'` when that is truthy, else to the default. |
| Interfaces.DefaultUnits | support/interfaces.py:174-185 | With no truthy unit option, every unit is its default. |
| Interfaces.UnitCount | support/interfaces.py:179-185 | There are five default units. |
| Observers.UnitsAgree | support/observers.py:38-44 | The observer programs' `UNITS` has five entries, identical to the shared one. |
| Observers.GetLocation | support/observers.py:20-27 | A shell that is not `None` wins, even `0`. Otherwise a truthy radius gives `float(radius[0])` in unit `radius[1]`, or `ValueError`/`IndexError`. Otherwise the result is 0. |
| Observers.ExtraRadiusTokensIgnored | support/observers.py:25-26 | Radius tokens after the unit do not change the location. |
| FluxEnergy.GetTime | flux-energy.py:136-145 | `None` gives step 0. One token must be an integer step. Two tokens give `(float(first), second)`. Any other count raises `ValueError`. |
| FluxEnergy.GetTimeAgreesWithIndexer | flux-energy.py:141-142 | A single time token is read as `compute_indexer` reads it: the same step, or an error for both. |
| FluxEnergy.GetShell | flux-energy.py:148-153 | `None` gives `()`. Otherwise the shells are returned unchanged, in order. |
| FluxEnergy.GetRadius | flux-energy.py:156-169 | `None` gives `()`, and one token is in au. A float last token puts every token in au. Otherwise the last token is the unit of the floats before it, or `ValueError`. An empty list raises `IndexError`. |
| FluxEnergy.RadiusWithUnit | flux-energy.py:163-168 | A non-float last token gives the floats before it in that unit, or `ValueError`. |
| FluxEnergy.RadiusAgreesWithIndexer | flux-energy.py:163-168 | Where `get_radius` takes a unit, it succeeds exactly when `compute_indexer` does, with the same values and unit. |
| FluxEnergy.RadiusUnitDecision | flux-energy.py:163-169 | Given float tokens before it, the last token alone decides between au and converted values. |
| StreamFluxEnergy.StreamFlux | stream-flux-energy.py:43-69 | One time and one location give one spectrum. Several times at one location, or several locations at one time, give one labelled spectrum each, in order. Every other count pair raises the multi-valued `ValueError`. |
| StreamFluxEnergy.StreamFluxRejects | stream-flux-energy.py:66-69 | The error occurs exactly when both counts are multi-valued or either is zero. |
| StreamFluxEnergy.StepLabelsDistinct | stream-flux-energy.py:53-58 | Distinct time steps get distinct `t = <n>` labels. |
| StreamFluxEnergy.ShellLabelsDistinct | stream-flux-energy.py:60-65 | Distinct shells get distinct `s = <n>` labels. |
| StreamFluxEnergy.Units | stream-flux-energy.py:45 | Exactly the default-unit keys, all truthy. A truthy user `'<key>_unit'` replaces the default. |
| StreamFluxEnergy.UnitsMatchInterfaces | stream-flux-energy.py:45 | The merge equals `get_units` of the shared interfaces. |
| Plots.At | support/plots.py:93 | It is a step exactly for indices. For indices it is `indices[i]`; for a measurement it is `values[i]`, in the indexer's unit. |
| Plots.FluxEnergy | support/plots.py:68-95 | Both counts multi-valued raise `ValueError`. One time with several locations draws one `r = …`/`shell = n` line per location, titled by time and species. Several times with one location draws one `t = …`/`time step n` line per time, titled by location and species. Otherwise a single line is drawn at the first time and first location; a zero count is an `IndexError`. |
| Plots.IndexLabelsDistinct | support/plots.py:74-88 | Distinct shells and distinct steps get distinct labels. |
| Plots.LocationLabel | support/plots.py:74-77 | The legend label of the `i`-th location: `r = <value> <unit>` or `shell = <n>`. `IndexLabelsDistinct` states that the labels tell shells apart. |
| Plots.TimeLabel | support/plots.py:85-88 | The legend label of the `i`-th time: `t = <value> <unit>` or `time step <n>`. `IndexLabelsDistinct` states that the labels tell steps apart. |
| Plots.DispatchCopiesCompared | support/plots.py:68-95 | Against the stream-flux-energy.py copy: the same kind of figure with as many lines where that copy draws. Both reject two multi-valued counts. A zero count is `ValueError` there but `IndexError` here. |
| Plots.LocationPart | support/plots.py:183-191 | A location that is neither `None` nor a string list raises `TypeError`. Otherwise the indexer's error is passed on, and an empty indexer raises `IndexError`. Shells give `shell = <first shell>`; a measurement gives `radius = <first value> <unit>`. |
| Plots.SpeciesPart | support/plots.py:192-200 | A string species is shown as given. An integer indexes the species names, counting from the end when negative, or raises `IndexError`. Any other type raises `TypeError`. |
| Plots.SpeciesName | support/plots.py:195 | `names[i]` exists exactly when Python indexing allows `i`; otherwise `IndexError`. |
| Plots.TitleParts | support/plots.py:173-200 | A time asked for and given fails with `AttributeError`, since `get_time` does not exist. Otherwise there are at most two parts. |
| Plots.TitlePartsShape | support/plots.py:173-200 | The parts come in the order location, then species. Each is present exactly when its key is both asked for and in `user`. |
| Plots.MakeTitle | support/plots.py:167-201 | The parts collected one by one, joined with `' | '`, or the error of the first failing part. |
| Plots.UnsetLocationIsShellZero | support/plots.py:183-188 | A location given as `None` is titled `shell = 0`. |
| Plots.ShellPartRoundTrip | support/plots.py:183-188 | One shell written with `str()` is titled `shell = <that shell>`. |
| Plots.TitleOfTwoParts | support/plots.py:183-201 | With a location and a species, the title is `<location> | <species>`. |
| Labels.ParseHms | support/labels.py:133-134 | It succeeds exactly when there are three `':'` fields, the first two `int()` tokens and the third a `float()` token; otherwise `ValueError`. The result is `(int(h), int(m), round(float(s)))`. |
| Labels.SplitDhmsWith | support/labels.py:127-134 | With `'day'` present, it succeeds exactly when there is one `','`, the day field reads and the clock after it parses; the result is that day count and clock. Without it, the result is day 0 and the parsed clock. Every failure is `ValueError`, except the day reader's own error. |
| Labels.DaysAsWritten | support/labels.py:132 | The day count is read from the first character only. An empty field raises `IndexError`. |
| Labels.SplitDhmsAsWritten | support/labels.py:127-134 | As written, a day count is always a single digit 0-9. |
| Labels.SplitDhmsAsWrittenReadsFirstDigit | support/labels.py:129-132 | For any timedelta text with days, the count read as written is `DaysRead(d)`, the first digit of the day count. |
| Labels.DaysRead | support/labels.py:132 | The first digit of a day count is at most 9. It equals the count below 10 and is smaller than it from 10 on. |
| Labels.TeenDaysMisformatted | support/labels.py:118-132 | For 10 to 19 days, the text as written shows `24 + h` hours. The corrected text shows `24*d + h`, and the two differ. |
| Labels.TenDaysMisread | support/labels.py:129-132 | `'10 days, 1:00:00'` reads as 1 day as written, and as 10 days when corrected. |
| Labels.SplitDhmsRoundTrip | support/labels.py:127-134 | The corrected split of any timedelta text gives back its days, hours, minutes and seconds. |
| Labels.ClockRoundTrip | support/labels.py:133-134 | A text without days gives `(0, h, m, s)`. |
| Labels.DaysRoundTrip | support/labels.py:129-132 | A text with days gives `(d, h, m, s)` under the corrected reading. |
| Labels.HmsRoundTrip | support/labels.py:131-134 | The `H:MM:SS` clock, with or without the blank after the comma, parses back to its fields. |
| Labels.FormatElapsedTime | support/labels.py:113-124 | Built on `split_dhms` as written: it succeeds exactly when that split does. |
| Labels.FormatElapsedTimeCorrected | support/labels.py:113-124 | Built on the corrected split: it succeeds exactly when that split does. |
| Labels.FormatElapsedTimeAsWritten | support/labels.py:113-132 | For any timedelta text, the result shows `24*DaysRead(d) + h` hours, then the minutes and seconds. Below 10 days this is `24*d + h`. |
| Labels.ElapsedTextFields | support/labels.py:120-124 | `HH:MM:SS` has three `':'` fields, each at least two characters, reading back as `24*d + h`, `m` and `s`. |
| Labels.ElapsedText | support/labels.py:120-124 | The `HH:MM:SS` text; `ElapsedTextFields` states what its fields read back as. |
| Labels.FractionalClockRoundTrip | support/labels.py:133-134 | A clock `H:MM:SS.f` gives `(0, h, m, round(s + 0.f))` under both readings. |
| Labels.FractionRoundsUpWithoutCarry | support/labels.py:133-134 | A fraction above one half rounds the seconds up to `s + 1`, without carrying into the minutes, so `0:00:59.6` gives 60 seconds. |
| Labels.HalfSecondRoundsToEven | support/labels.py:133-134 | A fraction of exactly one half rounds to the even neighbour: `0:00:02.5` gives 2 seconds and `0:00:03.5` gives 4. |
| Labels.FormatElapsedTimeCorrectedRoundTrip | support/labels.py:113-124 | With the corrected split, for any timedelta text the hours field is `24*days + hours`, followed by the minutes and seconds, each reading back as its count. |
| Numbers.RoundHalfEven | support/labels.py:132 | `round(x)` is within one half of `x`, and an exact tie goes to the even neighbour. |
| Numbers.Pad2RoundTrip | support/labels.py:121-123 | `f'{n:02}'` is at least two characters and reads back as `n`. |
| Numbers.IntToStringRoundTrip | support/interfaces.py:156 | `int(str(n)) == n`. |
| Numbers.DecimalToken | support/labels.py:134 | `float('<a>.<b>')` for digit strings is `a + b / 10^len(b)`. |
| Numbers.PyIndex | write-node-history.py:77 | A Python/numpy index is valid exactly in `-n .. n-1`, and a negative one counts from the end. |
| NodeHistory.HeaderEntries | node.py:18 | At least one entry, none holding `';'`. |
| NodeHistory.HeaderEntriesCover | node.py:18 | Joined back, the entries are the header without its leading `'#'`s and trailing newlines, with nothing else removed. |
| NodeHistory.EntryPair | node.py:21-23 | An empty entry assigns nothing. Any other entry must split on `':'` into exactly two parts, else `ValueError`. It then assigns its stripped key and value. |
| NodeHistory.InfoPairs | node.py:20-23 | It succeeds exactly when every entry is valid. The result has at most one pair per entry, each stripped. |
| NodeHistory.HeaderInfo | node.py:18-23 | It succeeds exactly when every entry is valid. There are no more keys than entries, and keys and values are stripped. |
| NodeHistory.FillInfo | node.py:19-23 | The loop gives the dictionary of the entries' assignments, a later key winning, or the first `ValueError`. |
| NodeHistory.ParseHeaderInfo | node.py:18-23 | The loop over the header's entries gives the header's info. |
| NodeHistory.ParseHistory | node.py:10-24 | The result holds the two columns unchanged and the header's info, or `ValueError`. `parse_node_history` (plot-node-history.py:142-156) is the same code. |
| NodeHistory.ValidWithoutExtraColons | node.py:20-22 | A header whose non-empty entries hold one `':'` each is accepted. |
| NodeHistory.AxisLabels | plot-node-history.py:65-70 | `Time [<time unit>]` and `<data name> [<data unit>]`. A missing key raises `KeyError` for the first one looked up. |
| WriteNodeHistory.HeaderFields | write-node-history.py:82-89 | Three to five fields: data name, time unit, data unit, then species and energy when present. |
| WriteNodeHistory.BuildHeader | write-node-history.py:80-91 | The text built by successive appends is `'#'`, the entries joined by `';'`, then a newline. |
| WriteNodeHistory.HeaderText | write-node-history.py:80-91 | The header starts with `'#'` and ends with a newline. |
| WriteNodeHistory.HeaderShape | write-node-history.py:82-90 | The header starts with `'#'` and ends with its only newline. The parser finds exactly the entries written. |
| WriteNodeHistory.HeaderEnding | write-node-history.py:88-90 | With an energy, the header ends with the energy entry and a newline, with no `';'`. Without one, it ends in `";\n"`. |
| WriteNodeHistory.EntryRoundTrip | write-node-history.py:83-89 | One entry of a clean key and value parses back to that key and value. |
| WriteNodeHistory.EntriesRoundTrip | write-node-history.py:82-90 | The entries of clean fields parse back to the same fields, in order. |
| WriteNodeHistory.HeaderRoundTrip | write-node-history.py:80-91 | The header read back by `parse_history` is exactly the dictionary of the fields written. |
| WriteNodeHistory.HeaderFieldsLookup | write-node-history.py:83-89 | The keys are data name, time unit, data unit, and species/energy when given. Each holds the value written, and the time unit is `days`. |
| WriteNodeHistory.HeaderGivesAxisLabels | write-node-history.py:80-91 | `plot_quantity_history` finds its labels in a written header: `Time [days]` and `<physics> [<unit>]`. |
| WriteNodeHistory.Compute | write-node-history.py:67-76 | One value per time. Step `i` reads `grid[t0+i][s0+i]`, a negative index wrapping as numpy does. A step outside the grid raises `IndexError`. |
| WriteNodeHistory.Squeeze | write-node-history.py:77 | A single value becomes a scalar; any other number of values stays a list, unchanged. |
| WriteNodeHistory.Iterate | write-node-history.py:59 | A scalar cannot be iterated: `TypeError`. A list is iterated as it is. |
| WriteNodeHistory.Write | write-node-history.py:41-62 | A walk off the grid raises `IndexError`. A single time squeezes the history to a scalar, and `zip` then raises `TypeError`. Otherwise the file is the header, then one row per time. |
| WriteNodeHistory.MainMeetsNode | write-node-history.py:30-34 | With `t0 = 0` and `s0 = shell - time_step`, entry `time_step` is the value at (`time_step`, `shell`). |
| WriteNodeHistory.NegativeShellWraps | write-node-history.py:34 | A negative `s0` reads the last shells first: `s0 = -1` reads shell `n-1` at step 0. |
| WriteNodeHistory.Rows | write-node-history.py:59 | One `'<t> <v>'` row per zipped pair: as many rows as the shorter list. |
| WriteNodeHistory.FileLines | write-node-history.py:58-62 | The file is the header line, then one row per pair in order, with no empty line at the end. |
| Streams3D.PyRange | streams3D.py:961 | `list(range(start, stop, step))`: `start + i*step` for each position. |
| Streams3D.RangeStopsAtStop | streams3D.py:966-971 | Every element lies on the start side of `stop`, and the next step would reach it. |
| Streams3D.RangeOf | streams3D.py:966-971 | `range` with a zero step raises `ValueError`. |
| Streams3D.RangeSpec | streams3D.py:960-971 | A failing range specification raises `ValueError`. Its forms are stated by `LoneSpec`, `TwoFieldSpec`, `ThreeFieldSpec`, `EveryKthSpec` and the rejection lemmas. |
| Streams3D.ParseStreamIds | streams3D.py:953-972 | `None` or `[]` gives `[]`, and `['all']` gives `0 .. maxlen-1`. Otherwise each token goes through `int()`, keeping order, length and duplicates, or `ValueError`. |
| Streams3D.StreamIdsRoundTrip | streams3D.py:972 | IDs written with `str()` read back unchanged. |
| Streams3D.LoneSpec | streams3D.py:957-971 | A lone token holding a colon is read as a range specification. |
| Streams3D.TwoFieldSpec | streams3D.py:967-971 | `'a:b'` is `range(a, b)`, whatever `maxlen` is. |
| Streams3D.TwoFields | streams3D.py:967-971 | Two fields are read as start and stop, or give the first `int()` error. |
| Streams3D.ThreeFieldSpec | streams3D.py:967-970 | `'a:b:c'` is `range(a, b, c)`. |
| Streams3D.ThreeFields | streams3D.py:967-970 | Three fields are read as start, stop and step. |
| Streams3D.EveryKthSpec | streams3D.py:963-966 | `'::k'` is every k-th ID from 0 up to `maxlen`. |
| Streams3D.EveryKth | streams3D.py:963-966 | The text after the leading colons is the step. |
| Streams3D.EmptyStartRejected | streams3D.py:967-971 | An empty field before the first colon raises `ValueError`. |
| Streams3D.FourFieldsRejected | streams3D.py:968-969 | Four fields raise `ValueError`. |
| Streams3D.PeriodicResize | streams3D.py:221-228 | Same length. Size `i` is multiplied by the factor exactly when `i % cadence == 0`; the defaults are 1 and 2.0. A zero cadence divides by zero. |
| Streams3D.DefaultResizeDoubles | streams3D.py:223-224 | With no specification, every size doubles. |
| Streams3D.ResizeComposes | streams3D.py:221-228 | Two resizes with one cadence are one resize by the product of the factors. |
| Streams3D.ResizeChangesMultiples | streams3D.py:225-227 | For a factor other than 1, a non-zero size changes exactly at multiples of the cadence. |
| Streams3D.BuildMarker | streams3D.py:975-1000 | The base keys are always present, and an unknown style gets the base marker. Known styles get a `resize` entry: the specification exactly when `resize` is `all` or the style's category, else `{}`. |
| Streams3D.BaseMarker | streams3D.py:1003-1010 | Exactly size, colour, opacity and line, the size being the `marker_size` option. |
| Streams3D.HighlightedMarker | streams3D.py:1018-1023 | Exactly colour and opacity. |
| Streams3D.ObserverMarker | streams3D.py:1026-1043 | Exactly the colour-scale entries, opacity, colour bar and `showscale`; `cmin`, `cmax`, `cmid` and `colorscale` come from the options. |
| Streams3D.ResizeSpec | streams3D.py:978-982 | Exactly cadence, scale and power, with defaults 1 and 2.0 for an unset cadence and scale. |
| Streams3D.BackgroundMarker | streams3D.py:1003-1015 | A background marker is the base (black, opacity 0.2, the marker size) plus `resize`. |
| Streams3D.HighlightedOverridesBase | streams3D.py:1018-1023 | The highlight colour and opacity 1.0 override the base; the size and line stay. |
| Streams3D.HighlightedKeys | streams3D.py:995-999 | A highlighted marker adds no key beyond the base keys and `resize`. |
| Streams3D.ObserverScaleEntries | streams3D.py:1026-1032 | An observer marker carries the options' `cmin`, `cmid`, `cmax` and `colorscale`. |
| Streams3D.ObserverLook | streams3D.py:1026-1043 | Opacity 1.0, still black. `showscale` is set exactly when a colour scale is given without `no_colorbar`. |
| Panels.Resolve | streams3D.py:452-458 | The user's value if it is not `None`, else the default if that is not `None`, else `None`. |
| Panels.HideAxesByDefault | streams3D.py:429-434 | The `False` default of `hide_axes` is returned, not skipped. |
| Panels.UnsetWithoutDefault | streams3D.py:452-458 | No user value and no default gives `None`. |
| Panels.PanelProperties.constructor | streams3D.py:426-436 | Known names are the default names plus the user's, all cached as `None`. |
| Panels.PanelProperties.GetAttr | streams3D.py:442-447 | An unknown name raises `PanelPropertyError`. A known name returns what `Resolve` gives, and the cache then holds it. |
| Panels.Observing | streams3D.py:583-586 | Exactly the observer elements, in their order and with their repetitions: `ObservingAppend` states it. |
| Panels.ObservingAppend | streams3D.py:583-586 | The observers of two concatenated lists are the observers of each, in order. A single element is kept exactly when it is an observer. |
| Panels.GlobalValue | streams3D.py:588-593 | With no observers the value is `None`. A value other than `None` is held by every observer marker. |
| Panels.Common | streams3D.py:588-593 | The value all observer markers share, including a shared `None`. `None` when they disagree or there are none. |
| Panels.CommonOfUnset | streams3D.py:590-593 | One marker without the entry makes the shared value `None`. |
| Panels.Markers | streams3D.py:590 | The markers of the elements, in order. |
| Panels.Panel.constructor | streams3D.py:543-557 | No elements, and no cached colour scale. |
| Panels.Panel.AddOne | streams3D.py:559-561 | Appends one element; the cached scale is unchanged. |
| Panels.Panel.AddMany | streams3D.py:563-565 | Appends the elements in order. |
| Panels.Panel.Cmin | streams3D.py:595-600 | While `None`, the cache takes `global_value('cmin')`; the property returns the cache. |
| Panels.Panel.Cmid | streams3D.py:607-612 | The same for `cmid`. |
| Panels.Panel.Cmax | streams3D.py:619-624 | The same for `cmax`. |
| Panels.Panel.SetCminCmax | streams3D.py:631-636 | A minimum or maximum still unknown after lookup becomes the given lowest or highest value; known ones stay. |
| Panels.Panel.SetGlobalColorscale | streams3D.py:641-652 | Afterwards every observer marker holds the panel's cmin, cmid and cmax, and nothing else in it changes. Non-observer markers are untouched, and known panel values stay. |
| Panels.Panel.SpreadColorscale | streams3D.py:649-652 | The loop sets the three entries in every observer marker, in order. |
| Panels.Panel.SetEntry | streams3D.py:650-652 | One assignment `marker[key] = self.<key>` sets that entry, leaves the rest, and keeps a known panel value. |

## Left out

- Drawing, file output and file reading are left out:
  - matplotlib/plotly calls and saving;
  - `numpy.loadtxt` of the history columns, which `ParseHistory` takes as parameters;
  - `path.write_text`, which is modelled as the text it would write.
- The eprempy data layer (datasets, observables, `quantity.measure`, `withunit`, species lookup) is not part of this model.
  - A measurement is a value list plus its unit name, and unit conversion is left out.
  - Species names are a parameter.
- Python's `str(float)` and `f'{x:.1f}'`/`f'{x:.3f}'` are parameters (`show`, `show1`, `show3`), so the digits of floats are not modelled.
- `int()`/`float()` follow a subset of Python's grammar: surrounding white space, an optional sign, ASCII digits, and for `float` one `'.'`.
  - Underscores, exponents, `inf` and `nan` are left out.
  - An `int()` or `float()` of a non-string (a `TypeError`) is modelled only where the source can receive one.
- `Panels.Panel.SetCminCmax`: `numpy.min`/`numpy.max` over the observer values are the parameters `lo`/`hi`, because they involve floating-point arrays.
- `_radial_resize` (a power law on floats), `resize_marker` and the lazy `_marker` cache of `Stream` are left out.
- The camera/axis dictionaries of `PanelProperties` and the title attribute's later use are left out.
- `_elements` starts as `None` and becomes `[]` on first use. The model starts with `[]`, which every public member observes identically.
- `global_value` counts values with `Counter`, where Python's `1 == 1.0 == True` would merge an int, a float and a bool. The model compares the `Value` datatype, where those differ.
- `make_title`'s time branch calls `interfaces.get_time`, which support/interfaces.py does not define. It is modelled as `AttributeError("get_time")`, so its `TypeError` branch is unreachable.
- `FluxEnergy.GetTime`: the `ValueError` raised for a wrong token count carries the token list as its message. The model gives it a fixed message.
- Marker styles are a datatype: any style name other than the three known ones, and `None`, is `Unstyled`.
- The values argparse stores are a datatype of `None`, bool, int, float, string, string list, int list and dictionary.
  - A shell given as anything other than `None` or an int list is a `TypeError` in `get_shell`. Python's `tuple()` would accept other iterables.
- `create_observer_streams`' merge of user options is not part of this model: it iterates over a set, whose order Python leaves unspecified.
- `build_paths` and `get_streams` depend on globbing and the filesystem and are not part of this model.
- The other scripts' calls to `observers.get_times`/`get_locations`/`get_units` and `plots.flux`/`make_suptitle` go to functions not in the support modules. The local rules that follow those calls are modelled.

- `Labels.FormatElapsedTime`: its own contract states only when it succeeds. What it shows is stated by `FormatElapsedTimeAsWritten`.
- `WriteNodeHistory.Write`: the `str()` of a time and of a value is the parameter `str`, and `path.write_text` is modelled as the text returned.

## Findings

| source | as written | input that shows it | evidently intended | confidence | as-written member | corrected member |
|---|---|---|---|---|---|---|
| support/labels.py:132 | `int(d[0])` reads only the first character of the day field, so `format_elapsed_time` shows `24*first digit + h` hours | `'10 days, 1:00:00'` splits as `(1, 1, 0, 0)` and is shown as `25:00:00` | the whole day count: `(10, 1, 0, 0)`, shown as `241:00:00` | not executed | Labels.TeenDaysMisformatted | Labels.FormatElapsedTimeCorrectedRoundTrip |
