/** Reading a node-history file (node.py `parse_history`, copied as
    plot-node-history.py `parse_node_history`): the first line is a header
    of `key: value` entries separated by `;`; the columns below it are left
    to the caller. Also the labels `plot_quantity_history` draws from the
    header. */
module NodeHistory {
  import opened Results
  import opened Text
  import opened Dicts

  /** The header's entries: every leading `'#'` and trailing newline
      removed, then split on `';'`. */
  function HeaderEntries(header: string): (entries: seq<string>)
    ensures |entries| >= 1
    ensures forall i :: 0 <= i < |entries| ==> ';' !in entries[i]
  {
    Split(RStripChar(LStripChar(header, '#'), '\n'), ';')
  }

  /** Joined back with `';'`, the entries are the header with its leading
      `'#'`s and trailing newlines gone, and nothing else gone. */
  lemma HeaderEntriesCover(header: string)
    ensures var body := Join(HeaderEntries(header), ";");
      (body == [] || (body[0] != '#' && body[|body| - 1] != '\n')) &&
      exists i, j :: 0 <= i <= j <= |header| && body == header[i..j] &&
        (forall k :: 0 <= k < i ==> header[k] == '#') &&
        (forall k :: j <= k < |header| ==> header[k] == '\n')
  {
    JoinSplit(RStripChar(LStripChar(header, '#'), '\n'), ';');
    StrippedFrame(header);
  }

  /** What stripping the leading `'#'`s and trailing newlines leaves is a
      slice of the header with only those characters around it. */
  lemma StrippedFrame(header: string)
    ensures var body := RStripChar(LStripChar(header, '#'), '\n');
      (body == [] || (body[0] != '#' && body[|body| - 1] != '\n')) &&
      exists i, j :: 0 <= i <= j <= |header| && body == header[i..j] &&
        (forall k :: 0 <= k < i ==> header[k] == '#') &&
        (forall k :: j <= k < |header| ==> header[k] == '\n')
  {
    var l := LStripChar(header, '#');
    var body := RStripChar(l, '\n');
    var i := |header| - |l|;
    var j := i + |body|;
    assert body == header[i..j];
    assert body != [] ==> body[0] == l[0];
    forall k | j <= k < |header| ensures header[k] == '\n' {
      assert header[k] == l[k - i];
    }
  }

  /** An entry other than `''` must split on `':'` into exactly two parts. */
  predicate ValidEntry(entry: string) {
    entry == "" || |Split(entry, ':')| == 2
  }

  /** The assignment an entry makes: its stripped key and stripped value;
      none for an empty entry. */
  function EntryPair(entry: string): (r: Result<Option<(string, string)>>)
    ensures r.Ok? <==> ValidEntry(entry)
    ensures r.Err? ==> r.error == RuntimeValueError
    ensures r.Ok? ==> (r.value.None? <==> entry == "")
    ensures r.Ok? && r.value.Some? ==>
      Strip(r.value.value.0) == r.value.value.0 && Strip(r.value.value.1) == r.value.value.1
  {
    if entry == "" then Ok(None)
    else
      var f := Split(entry, ':');
      if |f| != 2 then Err(RuntimeValueError)
      else
        StripIdempotent(f[0]);
        StripIdempotent(f[1]);
        Ok(Some((Strip(f[0]), Strip(f[1]))))
  }

  function OptionSeq<T>(o: Option<T>): seq<T> {
    if o.Some? then [o.value] else []
  }

  /** The assignments the entries make, in order, or `ValueError` when an
      entry is malformed. */
  function InfoPairs(entries: seq<string>): (r: Result<seq<(string, string)>>)
    ensures r.Ok? <==> forall i :: 0 <= i < |entries| ==> ValidEntry(entries[i])
    ensures r.Err? ==> r.error == RuntimeValueError
    ensures r.Ok? ==> |r.value| <= |entries|
    ensures r.Ok? ==> forall i :: 0 <= i < |r.value| ==>
      Strip(r.value[i].0) == r.value[i].0 && Strip(r.value[i].1) == r.value[i].1
  {
    if |entries| == 0 then Ok([])
    else
      var init := entries[..|entries| - 1];
      var last := entries[|entries| - 1];
      match InfoPairs(init)
      case Err(e) => Err(e)
      case Ok(pairs) =>
        match EntryPair(last)
        case Err(e) => Err(e)
        case Ok(p) =>
          assert forall i :: 0 <= i < |entries| - 1 ==> entries[i] == init[i];
          var r := pairs + OptionSeq(p);
          assert forall i :: 0 <= i < |r| ==> r[i] == if i < |pairs| then pairs[i] else p.value;
          Ok(r)
  }

  lemma InfoPairsSnoc(entries: seq<string>, e: string)
    requires InfoPairs(entries).Ok? && EntryPair(e).Ok?
    ensures InfoPairs(entries + [e]) == Ok(InfoPairs(entries).value + OptionSeq(EntryPair(e).value))
  {
    assert (entries + [e])[..|entries|] == entries;
  }

  /** The `info` dictionary of a header line: later duplicate keys win. */
  function HeaderInfo(header: string): (r: Result<map<string, string>>)
    ensures r.Ok? <==> forall i :: 0 <= i < |HeaderEntries(header)| ==> ValidEntry(HeaderEntries(header)[i])
    ensures r.Ok? ==> |r.value| <= |HeaderEntries(header)|
    ensures r.Ok? ==> forall k :: k in r.value ==> Strip(k) == k && Strip(r.value[k]) == r.value[k]
  {
    var entries := HeaderEntries(header);
    if InfoPairs(entries).Ok? then
      AssignSize(InfoPairs(entries).value);
      AssignStripped(InfoPairs(entries).value);
      InfoOf(entries)
    else InfoOf(entries)
  }

  /** Keys and values assigned stripped stay stripped. */
  lemma {:induction false} AssignStripped(pairs: seq<(string, string)>)
    requires forall i :: 0 <= i < |pairs| ==> Strip(pairs[i].0) == pairs[i].0 && Strip(pairs[i].1) == pairs[i].1
    ensures forall k :: k in Assign(pairs) ==> Strip(k) == k && Strip(Assign(pairs)[k]) == Assign(pairs)[k]
  {
    if |pairs| > 0 {
      AssignStripped(pairs[..|pairs| - 1]);
    }
  }

  /** The header-parsing loop of `parse_history`: entries are visited in
      order, empty ones skipped, and each other one writes its stripped key
      and value into `info`. */
  method ParseHeaderInfo(header: string) returns (r: Result<map<string, string>>)
    ensures r == HeaderInfo(header)
  {
    r := FillInfo(HeaderEntries(header));
  }

  /** The dictionary the entries make, or the first entry's `ValueError`. */
  function InfoOf(entries: seq<string>): Result<map<string, string>> {
    match InfoPairs(entries)
    case Err(e) => Err(e)
    case Ok(pairs) => Ok(Assign(pairs))
  }

  method FillInfo(entries: seq<string>) returns (r: Result<map<string, string>>)
    ensures r == InfoOf(entries)
  {
    var info: map<string, string> := map[];
    ghost var made: seq<(string, string)> := [];
    for i := 0 to |entries|
      invariant InfoPairs(entries[..i]) == Ok(made)
      invariant info == Assign(made)
    {
      assert entries[..i + 1] == entries[..i] + [entries[i]];
      var entry := entries[i];
      if entry == "" {
        SkipEmpty(entries[..i], made);
      } else {
        var f := Split(entry, ':');
        if |f| != 2 {
          MalformedEntry(entries, i);
          return Err(RuntimeValueError);
        }
        var key, value := Strip(f[0]), Strip(f[1]);
        TakeEntry(entries[..i], made, entry);
        AssignSnoc(made, (key, value));
        info := info[key := value];
        made := made + [(key, value)];
      }
    }
    assert entries[..|entries|] == entries;
    return Ok(info);
  }

  /** One malformed entry makes the whole header a `ValueError`. */
  lemma MalformedEntry(entries: seq<string>, i: nat)
    requires i < |entries| && !ValidEntry(entries[i])
    ensures InfoOf(entries) == Err(RuntimeValueError)
  {
  }

  /** An empty entry assigns nothing. */
  lemma SkipEmpty(entries: seq<string>, made: seq<(string, string)>)
    requires InfoPairs(entries) == Ok(made)
    ensures InfoPairs(entries + [""]) == Ok(made)
  {
    InfoPairsSnoc(entries, "");
    assert made + [] == made;
  }

  /** An entry with one colon assigns its stripped key and value. */
  lemma TakeEntry(entries: seq<string>, made: seq<(string, string)>, entry: string)
    requires InfoPairs(entries) == Ok(made)
    requires entry != "" && |Split(entry, ':')| == 2
    ensures InfoPairs(entries + [entry]) ==
      Ok(made + [(Strip(Split(entry, ':')[0]), Strip(Split(entry, ':')[1]))])
  {
    InfoPairsSnoc(entries, entry);
  }

  /** What `parse_history` returns, past the columns of numbers: the
      `time` and `data` columns and the header's `info`. */
  datatype History<T> = History(time: seq<T>, data: seq<T>, info: map<string, string>)

  /** `parse_history`, with the two columns given (reading them is left
      out): the result holds the columns unchanged and the header's info. */
  method ParseHistory<T>(header: string, time: seq<T>, data: seq<T>) returns (r: Result<History<T>>)
    ensures r.Ok? <==> HeaderInfo(header).Ok?
    ensures r.Ok? ==> r.value == History(time, data, HeaderInfo(header).value)
    ensures r.Err? ==> r.error == RuntimeValueError
  {
    var info :- ParseHeaderInfo(header);
    return Ok(History(time, data, info));
  }

  /** A header whose entries hold at most one `':'` each is accepted. */
  lemma ValidWithoutExtraColons(header: string)
    requires forall i :: 0 <= i < |HeaderEntries(header)| ==>
      HeaderEntries(header)[i] == "" || Count(HeaderEntries(header)[i], ':') == 1
    ensures HeaderInfo(header).Ok?
  {
    EntriesWithOneColon(HeaderEntries(header));
  }

  /** Entries that are empty or hold exactly one colon are all valid. */
  lemma EntriesWithOneColon(entries: seq<string>)
    requires forall i :: 0 <= i < |entries| ==> entries[i] == "" || Count(entries[i], ':') == 1
    ensures forall i :: 0 <= i < |entries| ==> ValidEntry(entries[i])
  {
    forall i | 0 <= i < |entries| ensures ValidEntry(entries[i]) {
      SplitCount(entries[i], ':');
    }
  }

  // ---------------------------------------------------------------------
  // plot_quantity_history

  /** The axis labels `plot_quantity_history` draws: `Time [<time unit>]`
      and `<data name> [<data unit>]`, looked up in that order. */
  function AxisLabels(info: map<string, string>): (r: Result<(string, string)>)
    ensures r.Ok? <==> "time unit" in info && "data name" in info && "data unit" in info
    ensures "time unit" !in info ==> r == Err(KeyError("time unit"))
    ensures "time unit" in info && "data name" !in info ==> r == Err(KeyError("data name"))
    ensures "time unit" in info && "data name" in info && "data unit" !in info ==> r == Err(KeyError("data unit"))
    ensures r.Ok? ==> r.value == ("Time [" + info["time unit"] + "]", info["data name"] + " [" + info["data unit"] + "]")
  {
    if "time unit" !in info then Err(KeyError("time unit"))
    else if "data name" !in info then Err(KeyError("data name"))
    else if "data unit" !in info then Err(KeyError("data unit"))
    else Ok(("Time [" + info["time unit"] + "]", info["data name"] + " [" + info["data unit"] + "]"))
  }
}
