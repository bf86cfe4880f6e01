/** The panel state of streams3D.py: a panel's graphics properties, resolved
    lazily from the user's values and the defaults, and the panel's elements
    with the colour scale it shares among its observer streams. */
module Panels {
  import opened Results
  import opened Cli

  // ---------------------------------------------------------------------
  // PanelProperties

  /** The default panel properties. */
  const DEFAULTS: map<string, Value> := map[
    "axis_fontsize" := Int(14),
    "axis_unit" := Null,
    "hide_axes" := Bool(false),
    "eye_in_rtp" := Null
  ]

  /** `PanelProperties._find(name)`: the user's value unless it is `None`,
      else the default unless that is `None`, else `None`. */
  function Resolve(user: map<string, Value>, name: string): (r: Value)
    ensures Get(user, name) != Null ==> r == Get(user, name)
    ensures Get(user, name) == Null ==> r == Get(DEFAULTS, name)
  {
    var userValue := Get(user, name);
    if userValue != Null then userValue
    else
      var defaultValue := Get(DEFAULTS, name);
      if defaultValue != Null then defaultValue else Null
  }

  /** A property the user did not set keeps its default, even a false one:
      axes are shown unless asked otherwise. */
  lemma HideAxesByDefault(user: map<string, Value>)
    requires Get(user, "hide_axes") == Null
    ensures Resolve(user, "hide_axes") == Bool(false)
    ensures Resolve(user, "axis_fontsize") == (if Get(user, "axis_fontsize") != Null then Get(user, "axis_fontsize") else Int(14))
  {
  }

  /** A property with no default and no user value resolves to `None`. */
  lemma UnsetWithoutDefault(user: map<string, Value>, name: string)
    requires Get(user, name) == Null && Get(DEFAULTS, name) == Null
    ensures Resolve(user, name) == Null
  {
  }

  /** `PanelProperties`: the user's values, the names it knows (the default
      names and the user's), and a cache of the values resolved so far
      (`None` until a lookup finds a value). */
  class PanelProperties {
    const user: map<string, Value>
    var all: map<string, Value>
    var title: string

    /** Every known name is cached, and a cached value is `None` or the one
        `Resolve` gives. */
    ghost predicate Valid()
      reads this
    {
      all.Keys == DEFAULTS.Keys + user.Keys &&
      forall k :: k in all ==> all[k] == Null || all[k] == Resolve(user, k)
    }

    /** `PanelProperties(**user)`. */
    constructor(user: map<string, Value>)
      ensures Valid()
      ensures this.user == user && title == ""
      ensures all == map k | k in DEFAULTS.Keys + user.Keys :: Null
    {
      this.user := user;
      all := map k | k in DEFAULTS.Keys + user.Keys :: Null;
      title := "";
    }

    /** `properties.<name>` (`__getattr__`): an unknown name raises
        `PanelPropertyError`; a known one is looked up when its cache is
        `None`, and the cache then holds what was found. The answer is
        always what `Resolve` gives: the cache never changes it. */
    method GetAttr(name: string) returns (r: Result<Value>)
      requires Valid()
      modifies this
      ensures Valid() && title == old(title)
      ensures r.Ok? <==> name in DEFAULTS || name in user
      ensures r.Err? ==> r.error == PanelPropertyError(name) && all == old(all)
      ensures r.Ok? ==> r.value == Resolve(user, name)
      ensures r.Ok? ==> all == old(all)[name := Resolve(user, name)]
    {
      if name !in all {
        return Err(PanelPropertyError(name));
      }
      if all[name] == Null {
        all := all[name := Resolve(user, name)];
      }
      return Ok(all[name]);
    }
  }

  // ---------------------------------------------------------------------
  // Panel

  /** A panel element with the marker dictionary it renders with;
      `observer` tells an observer stream from other elements. */
  class Element {
    var marker: map<string, Value>
    const observer: bool

    constructor(marker: map<string, Value>, observer: bool)
      ensures this.marker == marker && this.observer == observer
    {
      this.marker := marker;
      this.observer := observer;
    }
  }

  /** `observer_elements`: the observer streams among the elements, in order. */
  function Observing(elements: seq<Element>): (r: seq<Element>)
    ensures |r| <= |elements|
    ensures forall j :: 0 <= j < |r| ==> r[j] in elements && r[j].observer
    ensures forall j :: 0 <= j < |elements| && elements[j].observer ==> elements[j] in r
  {
    if elements == [] then []
    else if elements[0].observer then [elements[0]] + Observing(elements[1..])
    else Observing(elements[1..])
  }

  /** Filtering keeps order and multiplicity: the observers of two runs of
      elements are those of the first followed by those of the second, and
      a single element is kept exactly when it is an observer. */
  lemma {:induction false} ObservingAppend(a: seq<Element>, b: seq<Element>)
    ensures Observing(a + b) == Observing(a) + Observing(b)
    ensures |a| == 1 ==> Observing(a) == if a[0].observer then a else []
  {
    if a != [] {
      assert (a + b)[0] == a[0] && (a + b)[1..] == a[1..] + b;
      ObservingAppend(a[1..], b);
      if |a| == 1 {
        assert a[1..] == [] && a == [a[0]];
      }
    } else {
      assert a + b == b;
    }
  }

  /** The three entries of an observer marker the colour scale sets. */
  predicate IsScaleKey(k: string) {
    k == "cmin" || k == "cmid" || k == "cmax"
  }

  /** `m` has every entry of `m0` except perhaps the colour-scale ones. */
  ghost predicate Untouched(m: map<string, Value>, m0: map<string, Value>) {
    forall k :: !IsScaleKey(k) ==> (k in m <==> k in m0) && (k in m ==> m[k] == m0[k])
  }

  /** The value every observer marker holds for a name, read with
      `marker.get(name)`: the shared value, which may be `None`, when all
      agree, and `None` when they disagree or there are none. */
  function Common(markers: seq<map<string, Value>>, name: string): (r: Value)
    ensures r != Null ==> |markers| > 0 && forall j :: 0 <= j < |markers| ==> Get(markers[j], name) == r
    ensures |markers| > 0 && (forall j :: 0 <= j < |markers| ==> Get(markers[j], name) == Get(markers[0], name)) ==>
      r == Get(markers[0], name)
    ensures |markers| > 0 ==> r == Null || r == Get(markers[0], name)
  {
    if |markers| > 0 && forall j :: 0 <= j < |markers| ==> Get(markers[j], name) == Get(markers[0], name)
    then Get(markers[0], name)
    else Null
  }

  /** A marker that lacks a value for a name makes the common value `None`. */
  lemma CommonOfUnset(markers: seq<map<string, Value>>, name: string, j: nat)
    requires j < |markers| && Get(markers[j], name) == Null
    ensures Common(markers, name) == Null
  {
  }

  /** The marker dictionaries of some elements, in order. */
  function Markers(elements: seq<Element>): (r: seq<map<string, Value>>)
    reads elements
    ensures |r| == |elements|
    ensures forall j :: 0 <= j < |r| ==> r[j] == elements[j].marker
  {
    seq(|elements|, j requires 0 <= j < |elements| reads elements => elements[j].marker)
  }

  /** `global_value(name)` of a panel with these elements. */
  function GlobalValue(elements: seq<Element>, name: string): (r: Value)
    reads elements
    ensures Observing(elements) == [] ==> r == Null
    ensures r != Null ==> forall e :: e in Observing(elements) ==> Get(e.marker, name) == r
  {
    Common(Markers(Observing(elements)), name)
  }

  /** `Panel`: its properties, its elements, and the cached colour-scale
      minimum, midpoint and maximum (`None` until known). */
  class Panel {
    const properties: PanelProperties
    var elements: seq<Element>
    var cmin: Value
    var cmid: Value
    var cmax: Value

    /** `Panel(properties)` for a dictionary of user values (none is `{}`). */
    constructor(user: map<string, Value>)
      ensures fresh(properties) && properties.user == user && properties.Valid()
      ensures elements == [] && cmin == Null && cmid == Null && cmax == Null
    {
      properties := new PanelProperties(user);
      elements := [];
      cmin, cmid, cmax := Null, Null, Null;
    }

    /** `add_one(element)`. */
    method AddOne(element: Element)
      modifies this
      ensures elements == old(elements) + [element]
      ensures cmin == old(cmin) && cmid == old(cmid) && cmax == old(cmax)
    {
      elements := elements + [element];
    }

    /** `add_many(elements)`. */
    method AddMany(more: seq<Element>)
      modifies this
      ensures elements == old(elements) + more
      ensures cmin == old(cmin) && cmid == old(cmid) && cmax == old(cmax)
    {
      elements := elements + more;
    }

    /** The `cmin` property: looked up among the observer markers while it
        is `None`. */
    method Cmin() returns (v: Value)
      modifies this
      ensures elements == old(elements) && cmid == old(cmid) && cmax == old(cmax)
      ensures cmin == (if old(cmin) == Null then old(GlobalValue(elements, "cmin")) else old(cmin))
      ensures v == cmin
    {
      if cmin == Null {
        cmin := GlobalValue(elements, "cmin");
      }
      v := cmin;
    }

    /** The `cmid` property. */
    method Cmid() returns (v: Value)
      modifies this
      ensures elements == old(elements) && cmin == old(cmin) && cmax == old(cmax)
      ensures cmid == (if old(cmid) == Null then old(GlobalValue(elements, "cmid")) else old(cmid))
      ensures v == cmid
    {
      if cmid == Null {
        cmid := GlobalValue(elements, "cmid");
      }
      v := cmid;
    }

    /** The `cmax` property. */
    method Cmax() returns (v: Value)
      modifies this
      ensures elements == old(elements) && cmin == old(cmin) && cmid == old(cmid)
      ensures cmax == (if old(cmax) == Null then old(GlobalValue(elements, "cmax")) else old(cmax))
      ensures v == cmax
    {
      if cmax == Null {
        cmax := GlobalValue(elements, "cmax");
      }
      v := cmax;
    }

    /** `set_cmin_cmax()`: a minimum or maximum still unknown becomes the
        smallest or largest observed value, `lo` and `hi`. */
    method SetCminCmax(lo: Value, hi: Value)
      modifies this
      ensures elements == old(elements) && cmid == old(cmid)
      ensures old(cmin) != Null ==> cmin == old(cmin)
      ensures old(cmin) == Null ==> cmin == (if old(GlobalValue(elements, "cmin")) != Null then old(GlobalValue(elements, "cmin")) else lo)
      ensures old(cmax) != Null ==> cmax == old(cmax)
      ensures old(cmax) == Null ==> cmax == (if old(GlobalValue(elements, "cmax")) != Null then old(GlobalValue(elements, "cmax")) else hi)
    {
      var low := if cmin == Null then GlobalValue(elements, "cmin") else cmin;
      var high := if cmax == Null then GlobalValue(elements, "cmax") else cmax;
      cmin := if low == Null then lo else low;
      cmax := if high == Null then hi else high;
    }

    /** `set_global_colorscale()`: without a known midpoint the minimum and
        maximum are settled first; then every observer marker receives the
        panel's minimum, midpoint and maximum, read through their
        properties one marker at a time. */
    method SetGlobalColorscale(lo: Value, hi: Value)
      modifies this, Observing(elements)
      ensures elements == old(elements)
      ensures forall e :: e in elements && e.observer ==>
        "cmin" in e.marker && e.marker["cmin"] == cmin &&
        "cmid" in e.marker && e.marker["cmid"] == cmid &&
        "cmax" in e.marker && e.marker["cmax"] == cmax
      ensures forall e :: e in elements && e.observer ==> Untouched(e.marker, old(e.marker))
      ensures forall e :: e in elements && !e.observer ==> e.marker == old(e.marker)
      ensures old(cmin) != Null ==> cmin == old(cmin)
      ensures old(cmid) != Null ==> cmid == old(cmid)
      ensures old(cmax) != Null ==> cmax == old(cmax)
      ensures cmid == Null ==> (lo != Null ==> cmin != Null) && (hi != Null ==> cmax != Null)
    {
      var mid := Cmid();
      if mid == Null {
        SetCminCmax(lo, hi);
      }
      ghost var obs := Observing(elements);
      ghost var m0 := Markers(obs);
      SpreadColorscale();
      forall e | e in elements && e.observer
        ensures "cmin" in e.marker && e.marker["cmin"] == cmin
        ensures "cmid" in e.marker && e.marker["cmid"] == cmid
        ensures "cmax" in e.marker && e.marker["cmax"] == cmax
        ensures Untouched(e.marker, old(e.marker))
      {
        var j :| 0 <= j < |elements| && elements[j] == e;
        var k :| 0 <= k < |obs| && obs[k] == e;
        assert m0[k] == old(e.marker);
      }
    }

    /** The loop of `set_global_colorscale()`: each observer marker in turn
        receives the `cmin`, `cmid` and `cmax` properties, each looked up
        among the markers when still `None`. */
    method SpreadColorscale()
      modifies this, Observing(elements)
      ensures elements == old(elements)
      ensures var obs := Observing(elements);
        Settled(obs, |obs|, "cmin", cmin) && Settled(obs, |obs|, "cmid", cmid) && Settled(obs, |obs|, "cmax", cmax)
      ensures var obs := Observing(elements);
        forall j :: 0 <= j < |obs| ==> Untouched(obs[j].marker, old(obs[j].marker))
      ensures forall e :: e in elements && !e.observer ==> e.marker == old(e.marker)
      ensures old(cmin) != Null ==> cmin == old(cmin)
      ensures old(cmid) != Null ==> cmid == old(cmid)
      ensures old(cmax) != Null ==> cmax == old(cmax)
    {
      var obs := Observing(elements);
      ghost var m0 := Markers(obs);
      for i := 0 to |obs|
        invariant elements == old(elements)
        invariant Settled(obs, i, "cmin", cmin) && Settled(obs, i, "cmid", cmid) && Settled(obs, i, "cmax", cmax)
        invariant AllUntouched(obs, m0)
        invariant forall e :: e in elements && !e.observer ==> e.marker == old(e.marker)
        invariant old(cmin) != Null ==> cmin == old(cmin)
        invariant old(cmid) != Null ==> cmid == old(cmid)
        invariant old(cmax) != Null ==> cmax == old(cmax)
      {
        SettleMarker(obs, i, m0);
      }
    }

    /** One turn of that loop, for the `i`-th observer marker. */
    method SettleMarker(obs: seq<Element>, i: nat, ghost m0: seq<map<string, Value>>)
      requires obs == Observing(elements) && i < |obs| && AllUntouched(obs, m0)
      requires Settled(obs, i, "cmin", cmin) && Settled(obs, i, "cmid", cmid) && Settled(obs, i, "cmax", cmax)
      modifies this, obs[i]
      ensures elements == old(elements) && AllUntouched(obs, m0)
      ensures Settled(obs, i + 1, "cmin", cmin) && Settled(obs, i + 1, "cmid", cmid) && Settled(obs, i + 1, "cmax", cmax)
      ensures old(cmin) != Null ==> cmin == old(cmin)
      ensures old(cmid) != Null ==> cmid == old(cmid)
      ensures old(cmax) != Null ==> cmax == old(cmax)
    {
      ScaleKeys();
      SetEntry("cmin", obs, i, m0, "cmid", i, "cmax", i);
      SetEntry("cmid", obs, i, m0, "cmin", i + 1, "cmax", i);
      SetEntry("cmax", obs, i, m0, "cmin", i + 1, "cmid", i + 1);
    }

    /** The cached colour-scale value named `key`. */
    function Scale(key: string): Value
      reads this
    {
      if key == "cmin" then cmin else if key == "cmid" then cmid else cmax
    }

    /** `element.marker[key] = self.<key>` for the `i`-th observer, where
        the property looks the value up while it is `None`; what the earlier
        observers hold under the two other names is kept. */
    method SetEntry(key: string, obs: seq<Element>, i: nat, ghost m0: seq<map<string, Value>>,
                    ghost k2: string, ghost n2: nat, ghost k3: string, ghost n3: nat)
      requires IsScaleKey(key) && IsScaleKey(k2) && IsScaleKey(k3) && key != k2 && key != k3 && k2 != k3
      requires obs == Observing(elements) && i < |obs| && AllUntouched(obs, m0)
      requires Settled(obs, i, key, Scale(key)) && Settled(obs, n2, k2, Scale(k2)) && Settled(obs, n3, k3, Scale(k3))
      modifies this, obs[i]
      ensures elements == old(elements) && AllUntouched(obs, m0)
      ensures obs[i].marker == old(obs[i].marker)[key := Scale(key)]
      ensures Settled(obs, i + 1, key, Scale(key)) && Settled(obs, n2, k2, Scale(k2)) && Settled(obs, n3, k3, Scale(k3))
      ensures old(Scale(key)) != Null ==> Scale(key) == old(Scale(key))
      ensures Scale(k2) == old(Scale(k2)) && Scale(k3) == old(Scale(k3))
    {
      if i > 0 { SettledKeepsCommon(elements, obs, i, key, Scale(key)); }
      var v;
      if key == "cmin" {
        v := Cmin();
      } else if key == "cmid" {
        v := Cmid();
      } else {
        v := Cmax();
      }
      Put(obs[i], key, v, obs, i, m0, k2, n2, Scale(k2), k3, n3, Scale(k3));
    }
  }

  /** The three colour-scale names are distinct. */
  lemma ScaleKeys()
    ensures IsScaleKey("cmin") && IsScaleKey("cmid") && IsScaleKey("cmax")
    ensures "cmin" != "cmid" && "cmin" != "cmax" && "cmid" != "cmax"
  {
    assert "cmin"[3] != "cmid"[3] && "cmin"[3] != "cmax"[3] && "cmid"[3] != "cmax"[3];
  }

  /** Each observer marker has every entry of its snapshot in `m0` except
      perhaps the colour-scale ones. */
  ghost predicate AllUntouched(obs: seq<Element>, m0: seq<map<string, Value>>)
    reads obs
  {
    |m0| == |obs| && forall j :: 0 <= j < |obs| ==> Untouched(obs[j].marker, m0[j])
  }

  /** The first `n` observers hold `v` under `key`. */
  ghost predicate Settled(obs: seq<Element>, n: nat, key: string, v: Value)
    reads obs
  {
    forall j :: 0 <= j < n && j < |obs| ==> key in obs[j].marker && obs[j].marker[key] == v
  }

  /** Once the first observer marker holds `None` under `key`, the common
      value is `None`, so a cached `None` stays `None` when looked up again. */
  lemma SettledKeepsCommon(elements: seq<Element>, obs: seq<Element>, i: nat, key: string, v: Value)
    requires obs == Observing(elements)
    requires 0 < i <= |obs| && Settled(obs, i, key, v)
    ensures v == Null ==> GlobalValue(elements, key) == Null
  {
    assert Markers(obs)[0] == obs[0].marker;
  }

  /** `element.marker[key] = v` for the `i`-th observer, keeping what the
      earlier ones hold under the two other keys. */
  method Put(e: Element, key: string, v: Value, ghost obs: seq<Element>, ghost i: nat,
             ghost m0: seq<map<string, Value>>,
             ghost k2: string, ghost n2: nat, ghost v2: Value,
             ghost k3: string, ghost n3: nat, ghost v3: Value)
    requires i < |obs| && obs[i] == e && |m0| == |obs| && IsScaleKey(key)
    requires key != k2 && key != k3
    requires Settled(obs, i, key, v) && Settled(obs, n2, k2, v2) && Settled(obs, n3, k3, v3)
    requires AllUntouched(obs, m0)
    modifies e
    ensures e.marker == old(e.marker)[key := v]
    ensures Settled(obs, i + 1, key, v) && Settled(obs, n2, k2, v2) && Settled(obs, n3, k3, v3)
    ensures AllUntouched(obs, m0)
  {
    e.marker := e.marker[key := v];
    forall j | 0 <= j < |obs| && obs[j] != e
      ensures obs[j].marker == old(obs[j].marker)
    {
    }
    assert Settled(obs, n2, k2, v2) by {
      forall j | 0 <= j < n2 && j < |obs| ensures k2 in obs[j].marker && obs[j].marker[k2] == v2 {
        assert k2 in old(obs[j].marker) && old(obs[j].marker)[k2] == v2;
      }
    }
    assert Settled(obs, n3, k3, v3) by {
      forall j | 0 <= j < n3 && j < |obs| ensures k3 in obs[j].marker && obs[j].marker[k3] == v3 {
        assert k3 in old(obs[j].marker) && old(obs[j].marker)[k3] == v3;
      }
    }
  }
}
