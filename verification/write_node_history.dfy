/** Writing a node-history file (write-node-history.py): the header line
    `build_header` assembles, the diagonal walk `compute` takes through a
    (time, shell) grid, and the rows of `<t> <v>` text below the header. */
module WriteNodeHistory {
  import opened Results
  import opened Text
  import opened Numbers
  import opened Dicts
  import NodeHistory

  // ---------------------------------------------------------------------
  // build_header

  /** One header entry as `build_header` formats it: `' <key>: <value>'`. */
  function EntryText(key: string, v: string): string {
    " " + key + ": " + v
  }

  /** The `(key, value)` pairs the header records, in order: data name,
      time unit (always `days`), data unit, then the species and the energy
      when the observation has those dimensions. `species` and `energy` are
      the text of the observation's species and energy. */
  function HeaderFields(physics: string, unit: string, species: Option<string>, energy: Option<string>): (r: seq<(string, string)>)
    ensures 3 <= |r| <= 5
  {
    [("data name", physics), ("time unit", "days"), ("data unit", unit)]
    + (if species.Some? then [("species", species.value)] else [])
    + (if energy.Some? then [("energy", energy.value)] else [])
  }

  function EntryTexts(fields: seq<(string, string)>): (r: seq<string>)
    ensures |r| == |fields|
  {
    seq(|fields|, i requires 0 <= i < |fields| => EntryText(fields[i].0, fields[i].1))
  }

  /** The entry texts of one more field end with its entry. */
  lemma EntryTextsSnoc(fields: seq<(string, string)>, f: (string, string))
    ensures EntryTexts(fields + [f]) == EntryTexts(fields) + [EntryText(f.0, f.1)]
  {
  }

  /** The header's entries between `'#'` and the newline; without an energy
      the header ends in `';'`, which leaves an empty last entry. */
  function HeaderEntryTexts(physics: string, unit: string, species: Option<string>, energy: Option<string>): seq<string> {
    EntryTexts(HeaderFields(physics, unit, species, energy)) + (if energy.Some? then [] else [""])
  }

  /** The header line: `'#'`, the entries joined by `';'`, a newline. */
  function HeaderText(physics: string, unit: string, species: Option<string>, energy: Option<string>): (r: string)
    ensures |r| >= 2 && r[0] == '#' && r[|r| - 1] == '\n'
  {
    "#" + Join(HeaderEntryTexts(physics, unit, species, energy), ";") + "\n"
  }

  /** Appending an entry closed by `';'` to a text that ends in `';'`. */
  lemma AppendEntry(text: string, parts: seq<string>, e: string)
    requires |parts| >= 1 && text == "#" + Join(parts, ";") + ";"
    ensures text + (e + ";") == "#" + Join(parts + [e], ";") + ";"
    ensures text + e == "#" + Join(parts + [e], ";")
  {
    JoinSnoc(parts, e, ";");
    Regroup(Join(parts, ";"), e);
  }

  lemma Regroup(j: string, e: string)
    ensures ("#" + j + ";") + (e + ";") == "#" + (j + ";" + e) + ";"
    ensures ("#" + j + ";") + e == "#" + (j + ";" + e)
  {
  }

  /** `build_header`: the text grows entry by entry, each but the energy
      entry closed by `';'`, and ends with a newline. */
  method BuildHeader(physics: string, unit: string, species: Option<string>, energy: Option<string>)
    returns (text: string)
    ensures text == HeaderText(physics, unit, species, energy)
  {
    ghost var parts := [EntryText("data name", physics)];
    text := "#";
    text := text + (EntryText("data name", physics) + ";");
    assert text == "#" + Join(parts, ";") + ";";
    AppendEntry(text, parts, EntryText("time unit", "days"));
    text := text + (EntryText("time unit", "days") + ";");
    parts := parts + [EntryText("time unit", "days")];
    AppendEntry(text, parts, EntryText("data unit", unit));
    text := text + (EntryText("data unit", unit) + ";");
    parts := parts + [EntryText("data unit", unit)];
    if species.Some? {
      AppendEntry(text, parts, EntryText("species", species.value));
      text := text + (EntryText("species", species.value) + ";");
      parts := parts + [EntryText("species", species.value)];
    }
    if energy.Some? {
      AppendEntry(text, parts, EntryText("energy", energy.value));
      text := text + EntryText("energy", energy.value);
      parts := parts + [EntryText("energy", energy.value)];
    } else {
      AppendEntry(text, parts, "");
      assert text == text + "";
      parts := parts + [""];
    }
    assert parts == HeaderEntryTexts(physics, unit, species, energy);
    text := text + "\n";
  }

  /** A value the header can carry and give back unchanged: no separator,
      no colon, no newline, no surrounding white space. */
  predicate Clean(v: string) {
    ':' !in v && ';' !in v && '\n' !in v && Strip(v) == v
  }

  /** Fields whose keys and values the header can carry. */
  predicate CleanFields(fields: seq<(string, string)>) {
    forall i :: 0 <= i < |fields| ==> Clean(fields[i].0) && Clean(fields[i].1)
  }

  /** The fields of a header built from clean values are clean. */
  lemma HeaderFieldsClean(physics: string, unit: string, species: Option<string>, energy: Option<string>)
    requires Clean(physics) && Clean(unit)
    requires species.Some? ==> Clean(species.value)
    requires energy.Some? ==> Clean(energy.value)
    ensures CleanFields(HeaderFields(physics, unit, species, energy))
  {
    FixedWordsClean();
    OptionalWordsClean();
  }

  /** The fixed keys, and the time unit, are clean. */
  lemma FixedWordsClean()
    ensures Clean("data name") && Clean("time unit") && Clean("data unit") && Clean("days")
  {
    WordClean("data name");
    WordClean("time unit");
    WordClean("data unit");
    WordClean("days");
  }

  /** The optional keys are clean. */
  lemma OptionalWordsClean()
    ensures Clean("species") && Clean("energy")
  {
    WordClean("species");
    WordClean("energy");
  }

  /** Lower-case words separated by single blanks. */
  predicate Words(s: string) {
    |s| > 0 && s[0] != ' ' && s[|s| - 1] != ' ' &&
    forall i :: 0 <= i < |s| ==> ('a' <= s[i] <= 'z') || s[i] == ' '
  }

  lemma WordClean(s: string)
    requires Words(s)
    ensures Clean(s)
  {
    assert !IsSpace(s[0]) && !IsSpace(s[|s| - 1]);
    assert LStrip(s) == s;
    assert RStrip(s) == s;
    assert forall i :: 0 <= i < |s| ==> s[i] != ':' && s[i] != ';' && s[i] != '\n';
  }

  /** An entry of clean key and value holds no `';'` or newline. */
  lemma EntryClean(key: string, v: string)
    requires Clean(key) && Clean(v)
    ensures ';' !in EntryText(key, v) && '\n' !in EntryText(key, v)
    ensures EntryText(key, v)[0] == ' '
  {
    var e := EntryText(key, v);
    assert e == " " + key + ": " + v;
    NotInConcat(" ", key, ';');
    NotInConcat(" " + key, ": ", ';');
    NotInConcat(" " + key + ": ", v, ';');
    NotInConcat(" ", key, '\n');
    NotInConcat(" " + key, ": ", '\n');
    NotInConcat(" " + key + ": ", v, '\n');
  }

  /** One entry parses back to its key and value. */
  lemma EntryRoundTrip(key: string, v: string)
    requires Clean(key) && Clean(v)
    ensures NodeHistory.EntryPair(EntryText(key, v)) == Ok(Some((key, v)))
  {
    var e := EntryText(key, v);
    assert e == (" " + key) + [':'] + (" " + v);
    NotInConcat(" ", key, ':');
    NotInConcat(" ", v, ':');
    Split2(" " + key, " " + v, ':');
    StripLeadingBlank(key);
    StripLeadingBlank(v);
  }

  /** Parsing the entries of clean fields gives back the fields. */
  lemma {:induction false} EntriesRoundTrip(fields: seq<(string, string)>)
    requires CleanFields(fields)
    ensures NodeHistory.InfoPairs(EntryTexts(fields)) == Ok(fields)
  {
    if |fields| > 0 {
      var init := fields[..|fields| - 1];
      var last := fields[|fields| - 1];
      assert CleanFields(init) by {
        forall i | 0 <= i < |init| ensures Clean(init[i].0) && Clean(init[i].1) {
          assert init[i] == fields[i];
        }
      }
      EntriesRoundTrip(init);
      EntryRoundTrip(last.0, last.1);
      EntryTextsSnoc(init, last);
      assert init + [last] == fields;
      NodeHistory.InfoPairsSnoc(EntryTexts(init), EntryText(last.0, last.1));
    }
  }

  /** The trailing empty entry of a header without energy is skipped. */
  lemma HeaderEntriesRoundTrip(physics: string, unit: string, species: Option<string>, energy: Option<string>)
    requires Clean(physics) && Clean(unit)
    requires species.Some? ==> Clean(species.value)
    requires energy.Some? ==> Clean(energy.value)
    ensures NodeHistory.InfoPairs(HeaderEntryTexts(physics, unit, species, energy)) ==
            Ok(HeaderFields(physics, unit, species, energy))
  {
    var fields := HeaderFields(physics, unit, species, energy);
    HeaderFieldsClean(physics, unit, species, energy);
    EntriesRoundTrip(fields);
    TrailingEntry(EntryTexts(fields), fields, if energy.Some? then [] else [""]);
  }

  /** An empty entry after the others, or none, changes nothing. */
  lemma TrailingEntry(entries: seq<string>, pairs: seq<(string, string)>, tail: seq<string>)
    requires NodeHistory.InfoPairs(entries) == Ok(pairs)
    requires tail == [] || tail == [""]
    ensures NodeHistory.InfoPairs(entries + tail) == Ok(pairs)
  {
    if tail == [] {
      assert entries + tail == entries;
    } else {
      NodeHistory.InfoPairsSnoc(entries, "");
      assert pairs + [] == pairs;
    }
  }

  /** The joined entries start with a blank, hold no newline and do not end
      with one. */
  lemma BodyShape(physics: string, unit: string, species: Option<string>, energy: Option<string>)
    requires Clean(physics) && Clean(unit)
    requires species.Some? ==> Clean(species.value)
    requires energy.Some? ==> Clean(energy.value)
    ensures var entries := HeaderEntryTexts(physics, unit, species, energy);
      forall i :: 0 <= i < |entries| ==> ';' !in entries[i] && '\n' !in entries[i]
    ensures var body := Join(HeaderEntryTexts(physics, unit, species, energy), ";");
      |body| > 0 && body[0] == ' ' && '\n' !in body
  {
    var fields := HeaderFields(physics, unit, species, energy);
    var entries := HeaderEntryTexts(physics, unit, species, energy);
    HeaderFieldsClean(physics, unit, species, energy);
    forall i | 0 <= i < |entries| ensures ';' !in entries[i] && '\n' !in entries[i] {
      if i < |fields| {
        EntryClean(fields[i].0, fields[i].1);
      }
    }
    EntryClean(fields[0].0, fields[0].1);
    JoinSplit(Join(entries, ";"), ';');
    SplitJoin(entries, ';');
    JoinNoNewline(entries);
    assert entries == [entries[0]] + entries[1..];
  }

  /** Pieces without a newline, joined by `';'`, hold no newline. */
  lemma {:induction false} JoinNoNewline(parts: seq<string>)
    requires forall i :: 0 <= i < |parts| ==> '\n' !in parts[i]
    ensures '\n' !in Join(parts, ";")
  {
    if |parts| > 1 {
      JoinNoNewline(parts[1..]);
      NotInConcat(parts[0], ";", '\n');
      NotInConcat(parts[0] + ";", Join(parts[1..], ";"), '\n');
    }
  }

  /** The header starts with `'#'` and ends with its only newline, and the
      header parser finds exactly the entries `build_header` wrote. */
  lemma HeaderShape(physics: string, unit: string, species: Option<string>, energy: Option<string>)
    requires Clean(physics) && Clean(unit)
    requires species.Some? ==> Clean(species.value)
    requires energy.Some? ==> Clean(energy.value)
    ensures var text := HeaderText(physics, unit, species, energy);
      text[0] == '#' && text[|text| - 1] == '\n' && '\n' !in text[..|text| - 1]
    ensures NodeHistory.HeaderEntries(HeaderText(physics, unit, species, energy)) ==
            HeaderEntryTexts(physics, unit, species, energy)
  {
    BodyShape(physics, unit, species, energy);
    LineOfEntries(HeaderEntryTexts(physics, unit, species, energy));
  }

  /** Entries without `';'` or newlines, whose join starts with a blank,
      make a one-line header whose entries the parser finds again. */
  lemma LineOfEntries(entries: seq<string>)
    requires |entries| >= 1
    requires forall i :: 0 <= i < |entries| ==> ';' !in entries[i] && '\n' !in entries[i]
    requires var body := Join(entries, ";"); |body| > 0 && body[0] == ' ' && '\n' !in body
    ensures var text := "#" + Join(entries, ";") + "\n";
      text[0] == '#' && text[|text| - 1] == '\n' && '\n' !in text[..|text| - 1] &&
      NodeHistory.HeaderEntries(text) == entries
  {
    SplitJoin(entries, ';');
    FramedLine(Join(entries, ";"));
  }

  /** A body that starts with a blank and holds no newline, framed by
      `'#'` and a newline, is one line whose frame strips off again. */
  lemma FramedLine(body: string)
    requires |body| > 0 && body[0] == ' ' && '\n' !in body
    ensures var text := "#" + body + "\n";
      text[0] == '#' && text[|text| - 1] == '\n' && '\n' !in text[..|text| - 1] &&
      RStripChar(LStripChar(text, '#'), '\n') == body
  {
    var text := "#" + body + "\n";
    var line := body + "\n";
    assert text == "#" + line;
    StripOneHash(line);
    StripOneNewline(body);
    assert text[..|text| - 1] == "#" + body;
    NotInConcat("#", body, '\n');
  }

  /** One leading `'#'` before a text that does not start with one. */
  lemma StripOneHash(line: string)
    requires |line| > 0 && line[0] != '#'
    ensures LStripChar("#" + line, '#') == line
  {
    assert ("#" + line)[1..] == line;
  }

  /** One trailing newline after a text that holds none. */
  lemma StripOneNewline(body: string)
    requires |body| > 0 && '\n' !in body
    ensures RStripChar(body + "\n", '\n') == body
  {
    assert (body + "\n")[..|body|] == body;
    assert body[|body| - 1] in body;
  }

  /** With an energy the header's last entry is the energy entry, not
      closed by `';'`; without one the header ends in `";\n"`. */
  lemma HeaderEnding(physics: string, unit: string, species: Option<string>, energy: Option<string>)
    ensures var text := HeaderText(physics, unit, species, energy);
      (energy.Some? ==> var e := EntryText("energy", energy.value) + "\n";
         |e| <= |text| && text[|text| - |e|..] == e) &&
      (energy.None? ==> |text| >= 2 && text[|text| - 2..] == ";\n")
  {
    LineEnding(HeaderEntryTexts(physics, unit, species, energy));
    LastEntry(physics, unit, species, energy);
  }

  /** The header's last entry is the energy entry, or empty without one. */
  lemma LastEntry(physics: string, unit: string, species: Option<string>, energy: Option<string>)
    ensures var entries := HeaderEntryTexts(physics, unit, species, energy);
      |entries| >= 4 &&
      entries[|entries| - 1] == if energy.Some? then EntryText("energy", energy.value) else ""
  {
    var fields := HeaderFields(physics, unit, species, energy);
    if energy.Some? {
      assert fields[|fields| - 1] == ("energy", energy.value);
    }
  }

  /** A header line ends with its last entry and the newline, so with
      `";\n"` when that entry is empty. */
  lemma LineEnding(entries: seq<string>)
    requires |entries| >= 2
    ensures var text := "#" + Join(entries, ";") + "\n";
      var e := entries[|entries| - 1] + "\n";
      |e| <= |text| && text[|text| - |e|..] == e &&
      (entries[|entries| - 1] == "" ==> |text| >= 2 && text[|text| - 2..] == ";\n")
  {
    var init, last := entries[..|entries| - 1], entries[|entries| - 1];
    assert entries == init + [last];
    JoinSnoc(init, last, ";");
    var front := "#" + Join(init, ";");
    var text := "#" + Join(entries, ";") + "\n";
    assert text == (front + ";") + (last + "\n");
    Suffix(front + ";", last + "\n");
    if last == "" {
      assert text == front + ";\n";
      Suffix(front, ";\n");
    }
  }

  /** The end of a concatenation is its second part. */
  lemma Suffix(p: string, q: string)
    ensures |q| <= |p + q| && (p + q)[|p + q| - |q|..] == q
  {
  }

  /** Round trip: the header `build_header` writes, read back by the header
      parser of `parse_history`, records exactly the data name, the time
      unit `days`, the data unit and, when given, the species and the
      energy. */
  lemma HeaderRoundTrip(physics: string, unit: string, species: Option<string>, energy: Option<string>)
    requires Clean(physics) && Clean(unit)
    requires species.Some? ==> Clean(species.value)
    requires energy.Some? ==> Clean(energy.value)
    ensures NodeHistory.HeaderInfo(HeaderText(physics, unit, species, energy)) ==
            Ok(Assign(HeaderFields(physics, unit, species, energy)))
  {
    HeaderShape(physics, unit, species, energy);
    HeaderEntriesRoundTrip(physics, unit, species, energy);
  }

  /** The header's fields have distinct keys, so each is read back as
      written: the keys are exactly those written, with their values. */
  lemma HeaderFieldsLookup(physics: string, unit: string, species: Option<string>, energy: Option<string>)
    ensures var info := Assign(HeaderFields(physics, unit, species, energy));
      info.Keys == {"data name", "time unit", "data unit"}
                   + (if species.Some? then {"species"} else {})
                   + (if energy.Some? then {"energy"} else {}) &&
      info["data name"] == physics && info["time unit"] == "days" && info["data unit"] == unit &&
      (species.Some? ==> info["species"] == species.value) &&
      (energy.Some? ==> info["energy"] == energy.value)
  {
    HeaderFieldKeys(physics, unit, species, energy);
    HeaderFieldValues(physics, unit, species, energy);
  }

  /** The keys the header records are exactly those written. */
  lemma HeaderFieldKeys(physics: string, unit: string, species: Option<string>, energy: Option<string>)
    ensures Assign(HeaderFields(physics, unit, species, energy)).Keys ==
      {"data name", "time unit", "data unit"}
      + (if species.Some? then {"species"} else {})
      + (if energy.Some? then {"energy"} else {})
  {
    var fields := HeaderFields(physics, unit, species, energy);
    var info := Assign(fields);
    var keys := {"data name", "time unit", "data unit"}
                + (if species.Some? then {"species"} else {})
                + (if energy.Some? then {"energy"} else {});
    forall k ensures (k in info) == (k in keys) {
      AssignKeys(fields, k);
      if k in keys {
        if k == "data name" { assert fields[0].0 == k; }
        else if k == "time unit" { assert fields[1].0 == k; }
        else if k == "data unit" { assert fields[2].0 == k; }
        else if k == "species" { assert fields[3].0 == k; }
        else { assert fields[|fields| - 1].0 == k; }
      }
    }
  }

  /** Each key the header records holds the value written for it. */
  lemma HeaderFieldValues(physics: string, unit: string, species: Option<string>, energy: Option<string>)
    ensures var info := Assign(HeaderFields(physics, unit, species, energy));
      "data name" in info && "time unit" in info && "data unit" in info &&
      info["data name"] == physics && info["time unit"] == "days" && info["data unit"] == unit &&
      (species.Some? ==> "species" in info && info["species"] == species.value) &&
      (energy.Some? ==> "energy" in info && info["energy"] == energy.value)
  {
    var fields := HeaderFields(physics, unit, species, energy);
    HeaderKeysDistinct();
    AssignLastWins(fields, 0);
    AssignLastWins(fields, 1);
    AssignLastWins(fields, 2);
    if species.Some? {
      AssignLastWins(fields, 3);
    }
    if energy.Some? {
      AssignLastWins(fields, |fields| - 1);
    }
  }

  /** The five header keys are distinct. */
  lemma HeaderKeysDistinct()
    ensures "data name" != "time unit" && "data name" != "data unit" && "time unit" != "data unit"
    ensures "species" != "energy"
    ensures "species" !in {"data name", "time unit", "data unit"}
    ensures "energy" !in {"data name", "time unit", "data unit"}
  {
    assert "data name"[5] != "data unit"[5];
    assert "species"[0] != "data name"[0] && "species"[0] != "time unit"[0] && "species"[0] != "data unit"[0];
    assert "energy"[0] != "data name"[0] && "energy"[0] != "time unit"[0] && "energy"[0] != "data unit"[0];
  }

  /** `plot_quantity_history` finds the labels it needs in a header that
      `build_header` wrote: the time unit `days` and `<physics> [<unit>]`. */
  lemma HeaderGivesAxisLabels(physics: string, unit: string, species: Option<string>, energy: Option<string>)
    requires Clean(physics) && Clean(unit)
    requires species.Some? ==> Clean(species.value)
    requires energy.Some? ==> Clean(energy.value)
    ensures NodeHistory.HeaderInfo(HeaderText(physics, unit, species, energy)).Ok?
    ensures NodeHistory.AxisLabels(NodeHistory.HeaderInfo(HeaderText(physics, unit, species, energy)).value) ==
            Ok(("Time [" + "days" + "]", physics + " [" + unit + "]"))
  {
    HeaderRoundTrip(physics, unit, species, energy);
    HeaderFieldsLookup(physics, unit, species, energy);
    var info := Assign(HeaderFields(physics, unit, species, energy));
    assert NodeHistory.HeaderInfo(HeaderText(physics, unit, species, energy)).value == info;
    assert "time unit" in info && "data name" in info && "data unit" in info;
    assert NodeHistory.AxisLabels(info) == Ok(("Time [" + "days" + "]", physics + " [" + unit + "]"));
  }

  // ---------------------------------------------------------------------
  // compute

  /** A (time, shell) grid: every time row holds `nshells` values. */
  predicate Rectangular<T>(grid: seq<seq<T>>, nshells: nat) {
    forall t :: 0 <= t < |grid| ==> |grid[t]| == nshells
  }

  /** Step `i` of the walk is inside the grid. */
  predicate InRange<T>(grid: seq<seq<T>>, nshells: nat, t0: int, s0: int, i: int) {
    PyIndex(t0 + i, |grid|).Some? && PyIndex(s0 + i, nshells).Some?
  }

  /** `compute(times, observation, t0, s0)`: one value per time, step `i`
      reading `grid[t0 + i, s0 + i]` as numpy does; `IndexError` as soon as
      a step falls outside the grid. */
  function Compute<T>(ntimes: nat, grid: seq<seq<T>>, nshells: nat, t0: int, s0: int): (r: Result<seq<T>>)
    requires Rectangular(grid, nshells)
    ensures r.Ok? <==> forall i :: 0 <= i < ntimes ==> InRange(grid, nshells, t0, s0, i)
    ensures r.Err? ==> r.error == IndexError
    ensures r.Ok? ==> |r.value| == ntimes
    ensures r.Ok? ==> forall i :: 0 <= i < ntimes && 0 <= t0 + i < |grid| && 0 <= s0 + i < nshells ==>
      r.value[i] == grid[t0 + i][s0 + i]
    ensures r.Ok? ==> forall i :: 0 <= i < ntimes && 0 <= t0 + i < |grid| && -(nshells as int) <= s0 + i < 0 ==>
      r.value[i] == grid[t0 + i][nshells + s0 + i]
  {
    if forall i :: 0 <= i < ntimes ==> InRange(grid, nshells, t0, s0, i) then
      var walk := seq(ntimes, i requires 0 <= i < ntimes && InRange(grid, nshells, t0, s0, i) =>
        grid[PyIndex(t0 + i, |grid|).value][PyIndex(s0 + i, nshells).value]);
      assert forall i :: 0 <= i < ntimes ==> (InRange(grid, nshells, t0, s0, i) &&
        walk[i] == grid[PyIndex(t0 + i, |grid|).value][PyIndex(s0 + i, nshells).value]);
      Ok(walk)
    else Err(IndexError)
  }

  /** With `t0 = 0` and `s0 = shell - time_step`, as `main` passes them,
      entry `time_step` of the history is the value at step `time_step` and
      shell `shell`: the walk meets the requested node there. */
  lemma MainMeetsNode<T>(ntimes: nat, grid: seq<seq<T>>, nshells: nat, shell: nat, timeStep: nat)
    requires Rectangular(grid, nshells)
    requires timeStep < ntimes
    requires Compute(ntimes, grid, nshells, 0, shell - timeStep).Ok?
    ensures timeStep < |grid| && shell < nshells &&
      Compute(ntimes, grid, nshells, 0, shell - timeStep).value[timeStep] == grid[timeStep][shell]
  {
    assert InRange(grid, nshells, 0, shell - timeStep, timeStep);
  }

  /** Before the walk reaches shell 0, numpy wraps a negative shell index
      to the last shells: step 0 with `s0 = -1` reads the last shell. */
  lemma NegativeShellWraps()
    ensures Compute(2, [[1, 2], [3, 4]], 2, 0, -1) == Ok([2, 3])
  {
    var r := Compute(2, [[1, 2], [3, 4]], 2, 0, -1);
    assert InRange([[1, 2], [3, 4]], 2, 0, -1, 0);
    assert InRange([[1, 2], [3, 4]], 2, 0, -1, 1);
    assert PyIndex(-1, 2) == Some(1) && PyIndex(0, 2) == Some(0) && PyIndex(1, 2) == Some(1);
    assert r.Ok?;
    assert r.value[0] == [[1, 2], [3, 4]][0][1];
    assert r.value[1] == [[1, 2], [3, 4]][1][0];
    assert r.value == [2, 3];
  }

  /** What `numpy.squeeze` makes of the walk: a single value becomes a
      0-d array, a scalar; any other length stays a one-dimensional array. */
  datatype Squeezed<T> = Scalar(x: T) | Vector(xs: seq<T>)

  /** `numpy.squeeze` of the list of walked values. */
  function Squeeze<T>(walk: seq<T>): (r: Squeezed<T>)
    ensures r.Scalar? <==> |walk| == 1
    ensures r.Scalar? ==> r.x == walk[0]
    ensures r.Vector? ==> r.xs == walk
  {
    if |walk| == 1 then Scalar(walk[0]) else Vector(walk)
  }

  /** Iterating over the squeezed history, as `zip` does: a 0-d array
      cannot be iterated and raises `TypeError`. */
  function Iterate<T>(h: Squeezed<T>): (r: Result<seq<T>>)
    ensures r.Err? <==> h.Scalar?
    ensures r.Err? ==> r.error == TypeError
    ensures r.Ok? ==> r.value == h.xs
  {
    match h
    case Scalar(_) => Err(TypeError)
    case Vector(xs) => Ok(xs)
  }

  /** `write`: the history of the node is computed and squeezed, then
      written after the header as one row per time. A walk that leaves
      the grid raises `IndexError`; a single time squeezes the history to
      a scalar, which `zip` rejects with `TypeError`, so nothing is
      written. */
  function Write<T>(header: string, times: seq<T>, grid: seq<seq<T>>, nshells: nat, t0: int, s0: int,
                    str: T -> string): (r: Result<string>)
    requires Rectangular(grid, nshells)
    ensures Compute(|times|, grid, nshells, t0, s0).Err? ==> r == Err(IndexError)
    ensures Compute(|times|, grid, nshells, t0, s0).Ok? && |times| == 1 ==> r == Err(TypeError)
    ensures Compute(|times|, grid, nshells, t0, s0).Ok? && |times| != 1 ==>
      r == Ok(FileText(header, times, Compute(|times|, grid, nshells, t0, s0).value, str))
  {
    var walk :- Compute(|times|, grid, nshells, t0, s0);
    var history :- Iterate(Squeeze(walk));
    Ok(FileText(header, times, history, str))
  }

  // ---------------------------------------------------------------------
  // The rows of write

  /** The body lines: `'<t> <v>'` for each pair `zip` forms, `str` being
      the rendering of a number. */
  function Rows<T>(times: seq<T>, values: seq<T>, str: T -> string): (r: seq<string>)
    ensures |r| == if |times| <= |values| then |times| else |values|
  {
    var n := if |times| <= |values| then |times| else |values|;
    seq(n, i requires 0 <= i < n => str(times[i]) + " " + str(values[i]))
  }

  /** The text written to the file: the header, then the rows joined by
      newlines with none after the last. */
  function FileText<T>(header: string, times: seq<T>, values: seq<T>, str: T -> string): string {
    header + Join(Rows(times, values, str), "\n")
  }

  /** The file's lines are the header line (its newline removed) and one
      `'<t> <v>'` line per zipped pair, in order, with no empty line after
      the last. */
  lemma FileLines<T>(physics: string, unit: string, species: Option<string>, energy: Option<string>,
                     times: seq<T>, values: seq<T>, str: T -> string)
    requires Clean(physics) && Clean(unit)
    requires species.Some? ==> Clean(species.value)
    requires energy.Some? ==> Clean(energy.value)
    requires |times| >= 1 && |values| >= 1
    requires forall x :: '\n' !in str(x)
    ensures var header := HeaderText(physics, unit, species, energy);
      Split(FileText(header, times, values, str), '\n') ==
        [header[..|header| - 1]] + Rows(times, values, str)
  {
    var header := HeaderText(physics, unit, species, energy);
    HeaderShape(physics, unit, species, energy);
    var rows := Rows(times, values, str);
    forall i | 0 <= i < |rows| ensures '\n' !in rows[i] {
      var n := if |times| <= |values| then |times| else |values|;
      NotInConcat(str(times[i]), " ", '\n');
      NotInConcat(str(times[i]) + " ", str(values[i]), '\n');
    }
    SplitJoin(rows, '\n');
    assert header == header[..|header| - 1] + ['\n'];
    SplitPrefix(header[..|header| - 1], Join(rows, "\n"), '\n');
  }
}
