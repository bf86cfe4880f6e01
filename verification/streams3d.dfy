/** The value-level rules of streams3D.py: reading the stream IDs to plot,
    resizing every n-th marker, and merging the marker dictionaries of the
    three marker styles. */
module Streams3D {
  import opened Results
  import opened Text
  import opened Numbers
  import opened Cli
  import Interfaces

  // ---------------------------------------------------------------------
  // Python's range

  /** `len(range(start, stop, step))`. */
  function RangeLength(start: int, stop: int, step: int): nat
    requires step != 0
  {
    if step > 0 then (if start < stop then (stop - start - 1) / step + 1 else 0)
    else (if stop < start then (start - stop - 1) / -step + 1 else 0)
  }

  /** `list(range(start, stop, step))`. */
  function PyRange(start: int, stop: int, step: int): (r: seq<int>)
    requires step != 0
    ensures |r| == RangeLength(start, stop, step)
    ensures forall i :: 0 <= i < |r| ==> r[i] == start + i * step
  {
    seq(RangeLength(start, stop, step), i => start + i * step)
  }

  /** A range holds exactly the values `start + i * step` that lie before
      `stop`: every element is short of `stop`, and the next one would not
      be. */
  lemma RangeStopsAtStop(start: int, stop: int, step: int)
    requires step != 0
    ensures var r := PyRange(start, stop, step);
      (step > 0 ==> (forall i :: 0 <= i < |r| ==> start <= r[i] < stop) && start + |r| * step >= stop) &&
      (step < 0 ==> (forall i :: 0 <= i < |r| ==> stop < r[i] <= start) && start + |r| * step <= stop)
  {
    if step > 0 {
      CountedSteps(stop - start, step);
    } else {
      CountedSteps(start - stop, -step);
      var n := RangeLength(start, stop, step);
      assert n * step == -(n * -step);
      forall i | 0 <= i < n ensures i * step == -(i * -step) {
      }
    }
  }

  /** Counting steps of size `d` that stay short of a distance `w`: the
      `(w - 1) / d + 1` steps of a positive distance all do, one more would
      not. */
  lemma CountedSteps(w: int, d: int)
    requires d > 0
    ensures var n := if w > 0 then (w - 1) / d + 1 else 0;
      (forall i :: 0 <= i < n ==> 0 <= i * d < w) && n * d >= w
  {
    if w > 0 {
      var q := (w - 1) / d;
      assert q * d <= w - 1 < q * d + d;
      forall i | 0 <= i < q + 1 ensures 0 <= i * d < w {
        MulMonotone(i, q, d);
      }
      assert (q + 1) * d == q * d + d;
    }
  }

  lemma MulMonotone(i: int, q: int, d: int)
    requires 0 <= i <= q && d > 0
    ensures 0 <= i * d <= q * d
  {
    assert q * d - i * d == (q - i) * d;
  }

  // ---------------------------------------------------------------------
  // parse_stream_ids

  /** `list(range(start, stop, step))`, or the `ValueError` `range` raises
      for a zero step. */
  function RangeOf(start: int, stop: int, step: int): (r: Result<seq<int>>)
    ensures r.Ok? <==> step != 0
    ensures r.Ok? ==> r.value == PyRange(start, stop, step)
    ensures r.Err? ==> r.error == RuntimeValueError
  {
    if step == 0 then Err(RuntimeValueError) else Ok(PyRange(start, stop, step))
  }

  /** A lone argument that is `all` or holds a colon: every ID; every k-th
      ID from 0 (`::k`); `range(a, b)` (`a:b`); or `range(a, b, c)`
      (`a:b:c`). The stop is not held to `maxlen`. */
  function RangeSpec(arg: string, maxlen: int): (r: Result<seq<int>>)
    requires arg == "all" || ':' in arg
    ensures r.Err? ==> r.error == RuntimeValueError
  {
    if arg == "all" then Ok(PyRange(0, maxlen, 1))
    else if StartsWith(arg, "::") then
      var step :- ParseInt(LStripChar(arg, ':'));
      RangeOf(0, maxlen, step)
    else
      var (start, rest) := SplitOnce(arg, ':');
      if ':' in rest then
        var fields := Split(rest, ':');
        if |fields| != 2 then Err(RuntimeValueError)
        else
          var a :- ParseInt(start);
          var b :- ParseInt(fields[0]);
          var c :- ParseInt(fields[1]);
          RangeOf(a, b, c)
      else
        var a :- ParseInt(start);
        var b :- ParseInt(rest);
        Ok(PyRange(a, b, 1))
  }

  /** `parse_stream_ids(ids, maxlen)`: nothing asked for is no IDs; a lone
      range specification is expanded; any other list is read token by
      token with `int()`, in order and with duplicates kept. */
  function ParseStreamIds(ids: Option<seq<string>>, maxlen: int): (r: Result<seq<int>>)
    ensures ids.None? || ids.value == [] ==> r == Ok([])
    ensures ids.Some? && ids.value == ["all"] ==>
      r.Ok? && |r.value| == (if maxlen > 0 then maxlen else 0) &&
      forall i :: 0 <= i < |r.value| ==> r.value[i] == i
    ensures ids.Some? && |ids.value| != 1 ==>
      (r.Ok? <==> Interfaces.AllInts(ids.value)) &&
      (r.Ok? ==> |r.value| == |ids.value| &&
                 forall i :: 0 <= i < |ids.value| ==> Some(r.value[i]) == ToInt(ids.value[i]))
    ensures ids.Some? && |ids.value| == 1 && ids.value[0] != "all" && ':' !in ids.value[0] ==>
      (r.Ok? <==> IsIntToken(ids.value[0])) &&
      (r.Ok? ==> r.value == [ToInt(ids.value[0]).value])
    ensures r.Err? ==> r.error == RuntimeValueError
  {
    if ids.None? || |ids.value| == 0 then Ok([])
    else if |ids.value| == 1 && (ids.value[0] == "all" || ':' in ids.value[0]) then
      RangeSpec(ids.value[0], maxlen)
    else if Interfaces.AllInts(ids.value) then Ok(Interfaces.IntsOf(ids.value))
    else Err(RuntimeValueError)
  }

  /** IDs written out with `str()` are read back as the same IDs. */
  lemma StreamIdsRoundTrip(ns: seq<int>, maxlen: int)
    ensures ParseStreamIds(Some(Interfaces.IndexTokens(ns)), maxlen) == Ok(ns)
  {
    var toks := Interfaces.IndexTokens(ns);
    forall i | 0 <= i < |ns| ensures ToInt(toks[i]) == Some(ns[i]) && ':' !in toks[i] {
      IntToStringRoundTrip(ns[i]);
    }
    if |ns| == 1 {
      assert toks[0] != "all" by {
        IntToStringRoundTrip(ns[0]);
        assert ToInt("all") == None by {
          assert Strip("all") == "all" by {
            assert !IsSpace('a') && !IsSpace('l');
            assert LStrip("all") == "all";
          }
          assert !IsDigit('a') && !IsSign('a');
        }
      }
    }
    assert Interfaces.AllInts(toks);
    assert Interfaces.IntsOf(toks) == ns;
  }

  /** A lone token holding a colon is read as a range specification. */
  lemma LoneSpec(arg: string, maxlen: int)
    requires ':' in arg
    ensures ParseStreamIds(Some([arg]), maxlen) == RangeSpec(arg, maxlen)
  {
  }

  /** `a:b` for integers `a`, `b` is `range(a, b)`, whatever `maxlen`. */
  lemma TwoFieldSpec(a: int, b: int, maxlen: int)
    ensures ParseStreamIds(Some([IntToString(a) + ":" + IntToString(b)]), maxlen) == Ok(PyRange(a, b, 1))
  {
    IntToStringRoundTrip(a);
    IntToStringRoundTrip(b);
    TwoFields(IntToString(a), IntToString(b), maxlen);
    LoneSpec(IntToString(a) + ":" + IntToString(b), maxlen);
  }

  /** Two colon-separated fields with a non-empty first one are read as
      start and stop. */
  lemma TwoFields(x: string, y: string, maxlen: int)
    requires ':' !in x && ':' !in y && x != []
    ensures ':' in x + ":" + y
    ensures RangeSpec(x + ":" + y, maxlen) ==
      (match ParseInt(x)
       case Err(e) => Err(e)
       case Ok(a) =>
         match ParseInt(y)
         case Err(e) => Err(e)
         case Ok(b) => Ok(PyRange(a, b, 1)))
  {
    var arg := x + ":" + y;
    assert arg == x + [':'] + y;
    assert ':' in arg by { assert arg[|x|] == ':'; }
    assert arg != "all" by { assert arg[|x|] == ':'; }
    assert !StartsWith(arg, "::") by { assert arg[0] == x[0] && x[0] in x; }
    SplitOnceAt(x, y, ':');
  }

  /** `a:b:c` for integers `a`, `b` and a non-zero `c` is `range(a, b, c)`. */
  lemma ThreeFieldSpec(a: int, b: int, c: int, maxlen: int)
    requires c != 0
    ensures ParseStreamIds(Some([IntToString(a) + ":" + IntToString(b) + ":" + IntToString(c)]), maxlen) ==
            Ok(PyRange(a, b, c))
  {
    IntToStringRoundTrip(a);
    IntToStringRoundTrip(b);
    IntToStringRoundTrip(c);
    ThreeFields(IntToString(a), IntToString(b), IntToString(c), maxlen);
    LoneSpec(IntToString(a) + ":" + IntToString(b) + ":" + IntToString(c), maxlen);
  }

  /** Three colon-separated fields with a non-empty first one are read as
      start, stop and step. */
  lemma ThreeFields(x: string, y: string, z: string, maxlen: int)
    requires ':' !in x && ':' !in y && ':' !in z && x != []
    ensures ':' in x + ":" + y + ":" + z
    ensures RangeSpec(x + ":" + y + ":" + z, maxlen) ==
      (match ParseInt(x)
       case Err(e) => Err(e)
       case Ok(a) =>
         match ParseInt(y)
         case Err(e) => Err(e)
         case Ok(b) =>
           match ParseInt(z)
           case Err(e) => Err(e)
           case Ok(c) => RangeOf(a, b, c))
  {
    var rest := y + ":" + z;
    var arg := x + ":" + y + ":" + z;
    assert arg == x + [':'] + rest;
    assert rest == y + [':'] + z;
    assert ':' in arg by { assert arg[|x|] == ':'; }
    assert arg != "all" by { assert arg[|x|] == ':'; }
    assert !StartsWith(arg, "::") by { assert arg[0] == x[0] && x[0] in x; }
    SplitOnceAt(x, rest, ':');
    assert ':' in rest by { assert rest[|y|] == ':'; }
    Split2(y, z, ':');
  }

  /** `::k` for a positive integer `k` is every k-th ID below `maxlen`. */
  lemma EveryKthSpec(k: nat, maxlen: int)
    requires k > 0
    ensures ParseStreamIds(Some(["::" + IntToString(k)]), maxlen) == Ok(PyRange(0, maxlen, k))
  {
    IntToStringRoundTrip(k);
    var x := IntToString(k);
    assert x[0] != ':' by { assert x[0] in x; }
    EveryKth(x, maxlen);
    LoneSpec("::" + x, maxlen);
  }

  /** `::` followed by a field that does not start with a colon reads that
      field as the step of a range from 0 to `maxlen`. */
  lemma EveryKth(x: string, maxlen: int)
    requires x != [] && x[0] != ':'
    ensures ':' in "::" + x
    ensures RangeSpec("::" + x, maxlen) ==
      (match ParseInt(x)
       case Err(e) => Err(e)
       case Ok(k) => RangeOf(0, maxlen, k))
  {
    var arg := "::" + x;
    assert ':' in arg by { assert arg[0] == ':'; }
    assert arg != "all" by { assert arg[0] == ':'; }
    assert StartsWith(arg, "::") by { assert arg[..2] == "::"; }
    assert LStripChar(arg, ':') == x by {
      assert arg[1..] == ":" + x;
      assert (":" + x)[1..] == x;
    }
  }

  /** An empty field before the first colon is rejected. */
  lemma EmptyStartRejected(rest: string, maxlen: int)
    requires rest == [] || rest[0] != ':'
    ensures ParseStreamIds(Some([":" + rest]), maxlen) == Err(RuntimeValueError)
  {
    var arg := ":" + rest;
    assert ':' in arg by { assert arg[0] == ':'; }
    assert arg != "all" by { assert arg[0] == ':'; }
    assert !StartsWith(arg, "::") by { assert |arg| >= 2 ==> arg[1] == rest[0]; }
    assert ToInt([]) == None;
    SplitOnceAt([], rest, ':');
    LoneSpec(arg, maxlen);
  }

  /** Four colon-separated fields are rejected. */
  lemma FourFieldsRejected(a: string, b: string, c: string, d: string, maxlen: int)
    requires ':' !in a && ':' !in b && ':' !in c && ':' !in d && a != []
    ensures ParseStreamIds(Some([a + ":" + b + ":" + c + ":" + d]), maxlen) == Err(RuntimeValueError)
  {
    var rest := b + ":" + c + ":" + d;
    var arg := a + ":" + rest;
    assert a + ":" + b + ":" + c + ":" + d == arg;
    assert arg == a + [':'] + rest;
    assert ':' in arg by { assert arg[|a|] == ':'; }
    assert arg != "all" by { assert arg[|a|] == ':'; }
    assert !StartsWith(arg, "::") by { assert arg[0] == a[0] && a[0] in a; }
    SplitOnceAt(a, rest, ':');
    LoneSpec(arg, maxlen);
    assert ':' in rest by { assert rest[|b|] == ':'; }
    Split3(b, c, d, ':');
  }

  /** `s.split(c, 1)` finds the first `c`. */
  lemma {:induction false} SplitOnceAt(x: string, y: string, c: char)
    requires c !in x
    ensures c in x + [c] + y && SplitOnce(x + [c] + y, c) == (x, y)
  {
    var s := x + [c] + y;
    assert s[|x|] == c;
    if x != [] {
      assert s[0] == x[0] && x[0] in x;
      assert s[1..] == x[1..] + [c] + y;
      assert c !in x[1..] by { assert forall k :: 0 <= k < |x[1..]| ==> x[1..][k] == x[k + 1]; }
      SplitOnceAt(x[1..], y, c);
      assert [x[0]] + x[1..] == x;
    }
  }

  // ---------------------------------------------------------------------
  // _periodic_resize

  /** The size factor of a resize specification: an int or a float. */
  function AsReal(v: Value): Option<real> {
    match v
    case Int(i) => Some(i as real)
    case Real(x) => Some(x)
    case _ => None
  }

  /** `Stream._periodic_resize(specs, sizes)`: the cadence `n` (default 1)
      and the factor (default 2.0) come from `specs`; a size whose position
      `i` leaves no remainder `i % n` is multiplied by the factor, every
      other size is kept. A zero cadence divides by zero at the first size. */
  function PeriodicResize(specs: map<string, Value>, sizes: seq<real>): (r: Result<seq<real>>)
    ensures sizes == [] ==> r == Ok([])
    ensures sizes != [] && GetOr(specs, "cadence", Int(1)) == Int(0) ==> r == Err(ZeroDivisionError)
    ensures r.Ok? ==> |r.value| == |sizes|
    ensures r.Ok? && sizes != [] ==>
      var n := GetOr(specs, "cadence", Int(1));
      var scale := AsReal(GetOr(specs, "scale", Real(2.0)));
      n.Int? && n.i != 0 && scale.Some? &&
      forall i :: 0 <= i < |sizes| ==>
        (i % n.i == 0 ==> r.value[i] == sizes[i] * scale.value) &&
        (i % n.i != 0 ==> r.value[i] == sizes[i])
  {
    if sizes == [] then Ok([])
    else
      match GetOr(specs, "cadence", Int(1))
      case Int(n) =>
        if n == 0 then Err(ZeroDivisionError)
        else
          (match AsReal(GetOr(specs, "scale", Real(2.0)))
           case Some(scale) =>
             Ok(seq(|sizes|, i requires 0 <= i < |sizes| => if i % n != 0 then sizes[i] else sizes[i] * scale))
           case None => Err(TypeError))
      case _ => Err(TypeError)
  }

  /** With no specification at all, every marker is doubled. */
  lemma DefaultResizeDoubles(sizes: seq<real>)
    ensures PeriodicResize(map[], sizes).Ok?
    ensures forall i :: 0 <= i < |sizes| ==> PeriodicResize(map[], sizes).value[i] == sizes[i] * 2.0
  {
  }

  /** Resizing twice with the same cadence is resizing once by the product
      of the two factors. */
  lemma ResizeComposes(n: int, a: real, b: real, sizes: seq<real>)
    requires n != 0
    ensures var once := PeriodicResize(map["cadence" := Int(n), "scale" := Real(a)], sizes);
      once.Ok? &&
      PeriodicResize(map["cadence" := Int(n), "scale" := Real(b)], once.value) ==
      PeriodicResize(map["cadence" := Int(n), "scale" := Real(a * b)], sizes)
  {
    var sa := map["cadence" := Int(n), "scale" := Real(a)];
    var sb := map["cadence" := Int(n), "scale" := Real(b)];
    var sab := map["cadence" := Int(n), "scale" := Real(a * b)];
    if sizes != [] {
      var once := PeriodicResize(sa, sizes).value;
      var twice := PeriodicResize(sb, once).value;
      var direct := PeriodicResize(sab, sizes).value;
      forall i | 0 <= i < |sizes| ensures twice[i] == direct[i] {
        if i % n == 0 {
          assert twice[i] == sizes[i] * a * b;
        }
      }
      assert twice == direct;
    }
  }

  /** Exactly the sizes at multiples of the cadence change (for a factor
      other than 1 and non-zero sizes). */
  lemma ResizeChangesMultiples(specs: map<string, Value>, sizes: seq<real>, i: nat)
    requires PeriodicResize(specs, sizes).Ok? && i < |sizes|
    requires sizes[i] != 0.0 && AsReal(GetOr(specs, "scale", Real(2.0))) != Some(1.0)
    ensures PeriodicResize(specs, sizes).value[i] != sizes[i] <==> i % GetOr(specs, "cadence", Int(1)).i == 0
  {
    var scale := AsReal(GetOr(specs, "scale", Real(2.0))).value;
    ScaledDiffers(sizes[i], scale);
  }

  lemma ScaledDiffers(x: real, scale: real)
    requires x != 0.0 && scale != 1.0
    ensures x * scale != x
  {
    assert x * scale - x == x * (scale - 1.0);
  }

  // ---------------------------------------------------------------------
  // build_marker

  /** `define_base_marker(cli)`. */
  function BaseMarker(cli: map<string, Value>): (r: map<string, Value>)
    ensures r.Keys == {"size", "color", "opacity", "line"}
    ensures r["size"] == Get(cli, "marker_size")
  {
    map["size" := Get(cli, "marker_size"), "color" := Str("black"), "opacity" := Real(0.2), "line" := Dict(map[])]
  }

  /** `update_highlighted_marker(cli)`. */
  function HighlightedMarker(cli: map<string, Value>): (r: map<string, Value>)
    ensures r.Keys == {"color", "opacity"}
  {
    map["color" := Get(cli, "highlight_color"), "opacity" := Real(1.0)]
  }

  /** `update_observer_marker(cli)`: the colour scale from the options, and
      a colour bar shown only for a colour scale without `no_colorbar`. */
  function ObserverMarker(cli: map<string, Value>): (r: map<string, Value>)
    ensures r.Keys == {"cmin", "cmax", "cmid", "colorscale", "opacity", "colorbar", "showscale"}
    ensures forall k :: k in {"cmin", "cmax", "cmid", "colorscale"} ==> r[k] == Get(cli, k)
  {
    map[
      "cmin" := Get(cli, "cmin"),
      "cmax" := Get(cli, "cmax"),
      "cmid" := Get(cli, "cmid"),
      "colorscale" := Get(cli, "colorscale"),
      "opacity" := Real(1.0),
      "colorbar" := Dict(map[
        "len" := Real(1.0),
        "lenmode" := Str("fraction"),
        "exponentformat" := Str("power"),
        "tickfont" := Dict(map["size" := Get(cli, "colorbar_fontsize")])
      ]),
      "showscale" := Bool(Truthy(Get(cli, "colorscale")) && !Truthy(Get(cli, "no_colorbar")))
    ]
  }

  /** The resize specification handed to every styled marker. */
  function ResizeSpec(cli: map<string, Value>): (r: map<string, Value>)
    ensures r.Keys == {"cadence", "scale", "power"}
    ensures "resize_every" !in cli ==> r["cadence"] == Int(1)
    ensures "resize_by" !in cli ==> r["scale"] == Real(2.0)
  {
    map[
      "cadence" := GetOr(cli, "resize_every", Int(1)),
      "scale" := GetOr(cli, "resize_by", Real(2.0)),
      "power" := GetOr(cli, "resize_power", Real(0.0))
    ]
  }

  /** The marker styles `build_marker` knows; any other style name, and
      no style, is `Unstyled`. */
  datatype Style = Background | Highlighted | Observer | Unstyled

  /** The resize category of a style: observer and highlighted markers are
      `active`. */
  function Category(style: Style): string
    requires style != Unstyled
  {
    if style == Background then "background" else "active"
  }

  /** The entries a known style lays over the base marker. */
  function StyleUpdate(cli: map<string, Value>, style: Style): map<string, Value> {
    match style
    case Background => map[]
    case Highlighted => HighlightedMarker(cli)
    case Observer => ObserverMarker(cli)
    case Unstyled => map[]
  }

  /** The resize entry of a known style: the resize specification only when
      the `resize` option is `all` or names the style's category. */
  function ResizeEntry(cli: map<string, Value>, style: Style): Value
    requires style != Unstyled
  {
    if Get(cli, "resize") in [Str("all"), Str(Category(style))] then Dict(ResizeSpec(cli)) else Dict(map[])
  }

  /** `build_marker(cli, style)`: the base marker, then, for the three
      known styles, the style's own entries over it and the resize entry.
      An unknown style gets the base marker. */
  function BuildMarker(cli: map<string, Value>, style: Style): (r: map<string, Value>)
    ensures BaseMarker(cli).Keys <= r.Keys
    ensures style == Unstyled ==> r == BaseMarker(cli)
    ensures style != Unstyled ==>
      "resize" in r &&
      (r["resize"] == Dict(ResizeSpec(cli)) <==> Get(cli, "resize") in [Str("all"), Str(Category(style))]) &&
      (r["resize"] != Dict(ResizeSpec(cli)) ==> r["resize"] == Dict(map[]))
  {
    if style == Unstyled then BaseMarker(cli)
    else
      assert ResizeSpec(cli) != map[] by { assert "cadence" in ResizeSpec(cli); }
      BaseMarker(cli) + StyleUpdate(cli, style) + map["resize" := ResizeEntry(cli, style)]
  }

  /** A key other than `resize` of a layered marker comes from the style's
      entries when they hold it, and from the base otherwise. */
  lemma Layered(base: map<string, Value>, update: map<string, Value>, resize: Value, k: string)
    requires k != "resize" && (k in base || k in update)
    ensures var r := base + update + map["resize" := resize];
      k in r && r[k] == if k in update then update[k] else base[k]
  {
  }

  /** Background markers are the base marker (faint black) plus the resize
      entry. */
  lemma BackgroundMarker(cli: map<string, Value>)
    ensures var r := BuildMarker(cli, Background);
      r.Keys == BaseMarker(cli).Keys + {"resize"} &&
      r["color"] == Str("black") && r["opacity"] == Real(0.2) && r["size"] == Get(cli, "marker_size")
  {
    var b, u, z := BaseMarker(cli), StyleUpdate(cli, Background), ResizeEntry(cli, Background);
    assert u == map[];
    assert "color" in b && "opacity" in b && "size" in b;
    assert "color"[0] != "resize"[0] && "opacity"[0] != "resize"[0] && "size"[0] != "resize"[0];
    Layered(b, u, z, "color");
    Layered(b, u, z, "opacity");
    Layered(b, u, z, "size");
  }

  /** Highlighted markers take the highlight colour and full opacity over
      the base; the size and line stay the base's. */
  lemma HighlightedOverridesBase(cli: map<string, Value>)
    ensures var r := BuildMarker(cli, Highlighted);
      r["color"] == Get(cli, "highlight_color") && r["opacity"] == Real(1.0) &&
      r["size"] == Get(cli, "marker_size") && r["line"] == Dict(map[])
  {
    var b, u, z := BaseMarker(cli), HighlightedMarker(cli), ResizeEntry(cli, Highlighted);
    assert "color" in u && "opacity" in u && "size" !in u && "line" !in u;
    assert "size" in b && "line" in b;
    assert "color"[0] != "resize"[0] && "opacity"[0] != "resize"[0];
    assert "size"[0] != "resize"[0] && "line"[0] != "resize"[0];
    Layered(b, u, z, "color");
    Layered(b, u, z, "opacity");
    Layered(b, u, z, "size");
    Layered(b, u, z, "line");
  }

  /** Highlighting adds no entry beyond the base ones and `resize`. */
  lemma HighlightedKeys(cli: map<string, Value>)
    ensures BuildMarker(cli, Highlighted).Keys == BaseMarker(cli).Keys + {"resize"}
  {
  }

  /** Observer markers carry the colour-scale options. */
  lemma ObserverScaleEntries(cli: map<string, Value>)
    ensures var r := BuildMarker(cli, Observer);
      r["cmin"] == Get(cli, "cmin") && r["cmid"] == Get(cli, "cmid") && r["cmax"] == Get(cli, "cmax") &&
      r["colorscale"] == Get(cli, "colorscale")
  {
    var b, u, z := BaseMarker(cli), ObserverMarker(cli), ResizeEntry(cli, Observer);
    assert u["cmin"] == Get(cli, "cmin") && u["cmid"] == Get(cli, "cmid") && u["cmax"] == Get(cli, "cmax");
    assert u["colorscale"] == Get(cli, "colorscale");
    assert "cmin"[0] != "resize"[0] && "cmid"[0] != "resize"[0];
    assert "cmax"[0] != "resize"[0] && "colorscale"[0] != "resize"[0];
    Layered(b, u, z, "cmin");
    Layered(b, u, z, "cmid");
    Layered(b, u, z, "cmax");
    Layered(b, u, z, "colorscale");
  }

  /** Observer markers are opaque and still black, and show a colour bar
      exactly when a colour scale is given without `no_colorbar`. */
  lemma ObserverLook(cli: map<string, Value>)
    ensures var r := BuildMarker(cli, Observer);
      r["opacity"] == Real(1.0) && r["color"] == Str("black") &&
      (r["showscale"] == Bool(true) <==> Truthy(Get(cli, "colorscale")) && !Truthy(Get(cli, "no_colorbar")))
  {
    var b, u, z := BaseMarker(cli), ObserverMarker(cli), ResizeEntry(cli, Observer);
    assert u["opacity"] == Real(1.0) && "color" !in u && "color" in b;
    assert u["showscale"] == Bool(Truthy(Get(cli, "colorscale")) && !Truthy(Get(cli, "no_colorbar")));
    assert "opacity"[0] != "resize"[0] && "color"[0] != "resize"[0] && "showscale"[1] != "resize"[1];
    Layered(b, u, z, "opacity");
    Layered(b, u, z, "color");
    Layered(b, u, z, "showscale");
  }
}
