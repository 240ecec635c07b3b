/**
 * The part of the platform's `URLSearchParams` that the report tool
 * relies on: an ordered list of (name, value) pairs, `get` (the value of
 * the first pair with a name) and `set` (give the first pair with that
 * name the new value and drop the others, or append a pair when there is
 * none).  Both the web client (apps/web/src/lib/api.ts) and the worker's
 * snapshot handler (apps/worker/src/index.ts) build query strings this way.
 */
module Query {
  import opened Text

  type Pairs = seq<(string, string)>

  predicate HasName(ps: Pairs, k: string) {
    exists i :: 0 <= i < |ps| && ps[i].0 == k
  }

  /** `get`: the value of the first pair named `k`. */
  function Get(ps: Pairs, k: string): Option<string> {
    if ps == [] then None
    else if ps[0].0 == k then Some(ps[0].1)
    else Get(ps[1..], k)
  }

  /** The pairs not named `k`, in order. */
  function Without(ps: Pairs, k: string): Pairs {
    if ps == [] then []
    else (if ps[0].0 == k then [] else [ps[0]]) + Without(ps[1..], k)
  }

  /** How many pairs are named `k`. */
  function CountName(ps: Pairs, k: string): nat {
    if ps == [] then 0
    else (if ps[0].0 == k then 1 else 0) + CountName(ps[1..], k)
  }

  /** `set(k, v)`. */
  function SetPair(ps: Pairs, k: string, v: string): Pairs {
    if ps == [] then [(k, v)]
    else if ps[0].0 == k then [(k, v)] + Without(ps[1..], k)
    else [ps[0]] + SetPair(ps[1..], k, v)
  }

  lemma {:induction false} GetMissing(ps: Pairs, k: string)
    ensures Get(ps, k).None? <==> !HasName(ps, k)
  {
    if ps != [] {
      GetMissing(ps[1..], k);
      if ps[0].0 != k {
        assert HasName(ps, k) <==> HasName(ps[1..], k) by {
          if HasName(ps, k) {
            var i :| 0 <= i < |ps| && ps[i].0 == k;
            assert ps[1..][i - 1] == ps[i];
          }
          if HasName(ps[1..], k) {
            var i :| 0 <= i < |ps[1..]| && ps[1..][i].0 == k;
            assert ps[i + 1] == ps[1..][i];
          }
        }
      }
    }
  }

  lemma {:induction false} WithoutNone(ps: Pairs, k: string)
    ensures CountName(Without(ps, k), k) == 0 && Get(Without(ps, k), k).None?
  {
    if ps != [] {
      WithoutNone(ps[1..], k);
      var head := if ps[0].0 == k then [] else [ps[0]];
      CountAppend(head, Without(ps[1..], k), k);
      GetAppend(head, Without(ps[1..], k), k);
    }
  }

  lemma {:induction false} WithoutOther(ps: Pairs, k: string, j: string)
    requires j != k
    ensures Get(Without(ps, k), j) == Get(ps, j)
  {
    if ps != [] {
      WithoutOther(ps[1..], k, j);
      var head := if ps[0].0 == k then [] else [ps[0]];
      GetAppend(head, Without(ps[1..], k), j);
    }
  }

  lemma {:induction false} WithoutIdempotent(ps: Pairs, k: string)
    ensures Without(Without(ps, k), k) == Without(ps, k)
  {
    if ps != [] {
      WithoutIdempotent(ps[1..], k);
      var head := if ps[0].0 == k then [] else [ps[0]];
      WithoutAppend(head, Without(ps[1..], k), k);
    }
  }

  lemma {:induction false} CountAppend(a: Pairs, b: Pairs, k: string)
    ensures CountName(a + b, k) == CountName(a, k) + CountName(b, k)
  {
    if a != [] {
      assert (a + b)[1..] == a[1..] + b;
      CountAppend(a[1..], b, k);
    } else {
      assert a + b == b;
    }
  }

  lemma {:induction false} GetAppend(a: Pairs, b: Pairs, k: string)
    ensures Get(a + b, k) == if Get(a, k).Some? then Get(a, k) else Get(b, k)
  {
    if a != [] {
      assert (a + b)[1..] == a[1..] + b;
      GetAppend(a[1..], b, k);
    } else {
      assert a + b == b;
    }
  }

  lemma {:induction false} WithoutAppend(a: Pairs, b: Pairs, k: string)
    ensures Without(a + b, k) == Without(a, k) + Without(b, k)
  {
    if a != [] {
      assert (a + b)[1..] == a[1..] + b;
      WithoutAppend(a[1..], b, k);
    } else {
      assert a + b == b;
    }
  }

  /** After `set(k, v)`, `get(k)` is `v`, and it is the only pair named `k`. */
  lemma {:induction false} SetGet(ps: Pairs, k: string, v: string)
    ensures Get(SetPair(ps, k, v), k) == Some(v)
    ensures CountName(SetPair(ps, k, v), k) == 1
  {
    if ps != [] && ps[0].0 == k {
      WithoutNone(ps[1..], k);
      CountAppend([(k, v)], Without(ps[1..], k), k);
    } else if ps != [] {
      SetGet(ps[1..], k, v);
      CountAppend([ps[0]], SetPair(ps[1..], k, v), k);
      GetAppend([ps[0]], SetPair(ps[1..], k, v), k);
    }
  }

  /** `set(k, v)` leaves every other name as it was. */
  lemma {:induction false} SetOther(ps: Pairs, k: string, v: string, j: string)
    requires j != k
    ensures Get(SetPair(ps, k, v), j) == Get(ps, j)
    ensures Without(SetPair(ps, k, v), k) == Without(ps, k)
  {
    if ps != [] && ps[0].0 == k {
      WithoutOther(ps[1..], k, j);
      GetAppend([(k, v)], Without(ps[1..], k), j);
      WithoutAppend([(k, v)], Without(ps[1..], k), k);
      WithoutIdempotent(ps[1..], k);
    } else if ps != [] {
      SetOther(ps[1..], k, v, j);
      GetAppend([ps[0]], SetPair(ps[1..], k, v), j);
      WithoutAppend([ps[0]], SetPair(ps[1..], k, v), k);
    } else {
      WithoutAppend([], [(k, v)], k);
    }
  }

  /** Setting a name that is not there appends one pair at the end. */
  lemma {:induction false} SetFresh(ps: Pairs, k: string, v: string)
    requires !HasName(ps, k)
    ensures SetPair(ps, k, v) == ps + [(k, v)]
  {
    if ps != [] {
      assert ps[0].0 != k;
      assert forall i :: 0 <= i < |ps[1..]| ==> ps[1..][i] == ps[i + 1];
      SetFresh(ps[1..], k, v);
      assert [ps[0]] + (ps[1..] + [(k, v)]) == ps + [(k, v)];
    }
  }

  /** A `URLSearchParams` object: its list of pairs, changed in place by `set`. */
  class SearchParams {
    var pairs: Pairs

    /** `new URLSearchParams(init)` from a list of pairs. */
    constructor (init: Pairs)
      ensures pairs == init
    {
      pairs := init;
    }

    function Value(k: string): Option<string>
      reads this
    {
      Get(pairs, k)
    }

    /** `set(k, v)`. */
    method Set(k: string, v: string)
      modifies this
      ensures pairs == SetPair(old(pairs), k, v)
      ensures Value(k) == Some(v)
      ensures forall j :: j != k ==> Value(j) == old(Value(j))
    {
      SetGet(pairs, k, v);
      forall j | j != k ensures Get(SetPair(pairs, k, v), j) == Get(pairs, j) {
        SetOther(pairs, k, v, j);
      }
      pairs := SetPair(pairs, k, v);
    }
  }
}
