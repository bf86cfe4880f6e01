/** A Python dictionary filled by successive assignments `d[k] = v`: the keys
    are those assigned, and a later assignment to a key overwrites an earlier
    one. The parsers of key/value text all build their result this way. */
module Dicts {

  /** The dictionary left by assigning the pairs of `ps` in order, starting
      from `{}`. */
  function Assign<K, V>(ps: seq<(K, V)>): map<K, V> {
    if |ps| == 0 then map[] else Assign(ps[..|ps| - 1])[ps[|ps| - 1].0 := ps[|ps| - 1].1]
  }

  /** The keys are exactly the keys assigned. */
  lemma {:induction false} AssignKeys<K, V>(ps: seq<(K, V)>, k: K)
    ensures k in Assign(ps) <==> exists i :: 0 <= i < |ps| && ps[i].0 == k
  {
    if |ps| > 0 {
      var init := ps[..|ps| - 1];
      AssignKeys(init, k);
      if k in Assign(init) {
        var i :| 0 <= i < |init| && init[i].0 == k;
        assert ps[i].0 == k;
      }
      if exists i :: 0 <= i < |ps| && ps[i].0 == k {
        var i :| 0 <= i < |ps| && ps[i].0 == k;
        if i < |ps| - 1 { assert init[i].0 == k; }
      }
    }
  }

  /** The value of a key is the one from its last assignment. */
  lemma {:induction false} AssignLastWins<K, V>(ps: seq<(K, V)>, i: nat)
    requires i < |ps|
    requires forall j :: i < j < |ps| ==> ps[j].0 != ps[i].0
    ensures ps[i].0 in Assign(ps) && Assign(ps)[ps[i].0] == ps[i].1
  {
    if i < |ps| - 1 {
      var init := ps[..|ps| - 1];
      assert forall j :: i < j < |init| ==> init[j].0 != init[i].0;
      AssignLastWins(init, i);
    }
  }

  /** A dictionary never has more keys than assignments were made. */
  lemma {:induction false} AssignSize<K, V>(ps: seq<(K, V)>)
    ensures |Assign(ps)| <= |ps|
  {
    if |ps| > 0 {
      var init := ps[..|ps| - 1];
      AssignSize(init);
      var m := Assign(init);
      var k := ps[|ps| - 1].0;
      if k in m {
        assert m[k := ps[|ps| - 1].1].Keys == m.Keys;
      } else {
        assert m[k := ps[|ps| - 1].1].Keys == m.Keys + {k};
      }
    }
  }

  /** Assigning one more pair is one more step of the fold. */
  lemma AssignSnoc<K, V>(ps: seq<(K, V)>, p: (K, V))
    ensures Assign(ps + [p]) == Assign(ps)[p.0 := p.1]
  {
    assert (ps + [p])[..|ps|] == ps;
  }
}
