/**
  A plain JavaScript object with string keys, as an ordered list of
  (key, value) pairs in property order. Reading a missing property gives
  `undefined`; assigning to an existing property replaces its value in
  place, and assigning to a new one appends it at the end. For keys that
  are not integer-like, this makes the order of `Object.entries` the order
  in which keys were first assigned; JavaScript lists integer-like keys
  first, in ascending order, which this model does not.
 */
module Entries {
  import opened JsValues

  type Entries = seq<(string, JsValue)>

  /** The keys in property order. */
  function KeysOf(m: Entries): (ks: seq<string>)
    ensures |ks| == |m|
    ensures forall i :: 0 <= i < |m| ==> ks[i] == m[i].0
  {
    if |m| == 0 then [] else [m[0].0] + KeysOf(m[1..])
  }

  /** An object never holds the same key twice. */
  predicate DistinctKeys(m: Entries) {
    forall i, j :: 0 <= i < j < |m| ==> m[i].0 != m[j].0
  }

  /** Property read `m[k]`. */
  function Get(m: Entries, k: string): JsValue {
    if |m| == 0 then Undefined
    else if m[0].0 == k then m[0].1
    else Get(m[1..], k)
  }

  /** Property assignment `m[k] = v`. */
  function Assign(m: Entries, k: string, v: JsValue): (r: Entries)
    ensures KeysOf(r) == if k in KeysOf(m) then KeysOf(m) else KeysOf(m) + [k]
    ensures Get(r, k) == v
    ensures forall k' :: k' != k ==> Get(r, k') == Get(m, k')
  {
    if |m| == 0 then [(k, v)]
    else if m[0].0 == k then [(k, v)] + m[1..]
    else
      var r := [m[0]] + Assign(m[1..], k, v);
      assert r[1..] == Assign(m[1..], k, v);
      assert KeysOf(m) == [m[0].0] + KeysOf(m[1..]);
      r
  }

  /** Assigning a new key appends the property at the end. */
  lemma {:induction false} AssignAppends(m: Entries, k: string, v: JsValue)
    requires k !in KeysOf(m)
    ensures Assign(m, k, v) == m + [(k, v)]
    decreases |m|
  {
    if |m| > 0 {
      assert KeysOf(m) == [m[0].0] + KeysOf(m[1..]);
      AssignAppends(m[1..], k, v);
      assert m == [m[0]] + m[1..];
    }
  }

  /** Assigning an existing key replaces its value where it stands. */
  lemma {:induction false} AssignReplaces(m: Entries, k: string, v: JsValue, i: nat)
    requires DistinctKeys(m) && i < |m| && m[i].0 == k
    ensures Assign(m, k, v) == m[i := (k, v)]
    decreases |m|
  {
    if i == 0 {
      assert Assign(m, k, v) == [(k, v)] + m[1..];
    } else {
      assert m[0].0 != k;
      DistinctTail(m);
      assert m[1..][i - 1] == m[i];
      AssignReplaces(m[1..], k, v, i - 1);
      assert Assign(m, k, v) == [m[0]] + m[1..][i - 1 := (k, v)];
    }
  }

  /** Every property after an assignment is the assigned pair or one the
      object already had. */
  lemma {:induction false} AssignOrigin(m: Entries, k: string, v: JsValue)
    ensures forall i :: 0 <= i < |Assign(m, k, v)| ==> Assign(m, k, v)[i] == (k, v) || Assign(m, k, v)[i] in m
    decreases |m|
  {
    var r := Assign(m, k, v);
    if |m| > 0 && m[0].0 != k {
      AssignOrigin(m[1..], k, v);
      assert r == [m[0]] + Assign(m[1..], k, v);
      forall i | 0 <= i < |r| ensures r[i] == (k, v) || r[i] in m {
        if i > 0 {
          assert r[i] == Assign(m[1..], k, v)[i - 1];
          assert m == [m[0]] + m[1..];
        }
      }
    } else if |m| > 0 {
      forall i | 0 <= i < |r| ensures r[i] == (k, v) || r[i] in m {
        if i > 0 {
          assert r[i] == m[i];
        }
      }
    }
  }

  /** Assignment keeps an object's keys distinct. */
  lemma {:induction false} AssignDistinct(m: Entries, k: string, v: JsValue)
    requires DistinctKeys(m)
    ensures DistinctKeys(Assign(m, k, v))
    decreases |m|
  {
    var r := Assign(m, k, v);
    if |m| > 0 && m[0].0 != k {
      DistinctTail(m);
      AssignDistinct(m[1..], k, v);
      assert r == [m[0]] + Assign(m[1..], k, v);
      assert KeysOf(r) == [m[0].0] + KeysOf(Assign(m[1..], k, v));
      assert m[0].0 !in KeysOf(r[1..]);
      forall i, j | 0 <= i < j < |r| ensures r[i].0 != r[j].0 {
        if i > 0 {
          assert r[i] == r[1..][i - 1] && r[j] == r[1..][j - 1];
        } else {
          assert r[j].0 == KeysOf(r[1..])[j - 1];
        }
      }
    } else if |m| > 0 {
      forall i, j | 0 <= i < j < |r| ensures r[i].0 != r[j].0 {
        assert r[j] == m[j];
        if i > 0 {
          assert r[i] == m[i];
        }
      }
    }
  }

  /** No value of the object is `undefined` or `null`. */
  predicate AllDefined(m: Entries) {
    forall i :: 0 <= i < |m| ==> Defined(m[i].1)
  }

  /** Assigning a defined value to an object whose values are all defined
      leaves every value defined. */
  lemma {:induction false} AssignDefined(m: Entries, k: string, v: JsValue)
    requires AllDefined(m) && Defined(v)
    ensures AllDefined(Assign(m, k, v))
    decreases |m|
  {
    if |m| > 0 && m[0].0 != k {
      AssignDefined(m[1..], k, v);
      var r := Assign(m, k, v);
      assert r == [m[0]] + Assign(m[1..], k, v);
      forall i | 0 <= i < |r| ensures Defined(r[i].1) {
        if i > 0 {
          assert r[i] == Assign(m[1..], k, v)[i - 1];
        }
      }
    } else if |m| > 0 {
      var r := Assign(m, k, v);
      forall i | 0 <= i < |r| ensures Defined(r[i].1) {
        if i > 0 {
          assert r[i] == m[i];
        }
      }
    }
  }

  /** A key that reads as defined is one of the keys, and with distinct
      keys it reads as the value at its position. */
  lemma {:induction false} GetPresent(m: Entries, k: string)
    ensures Get(m, k) != Undefined ==> k in KeysOf(m)
    ensures DistinctKeys(m) ==>
      forall i :: 0 <= i < |m| && m[i].0 == k ==> Get(m, k) == m[i].1
    decreases |m|
  {
    if |m| > 0 {
      GetPresent(m[1..], k);
      assert KeysOf(m) == [m[0].0] + KeysOf(m[1..]);
      if DistinctKeys(m) {
        DistinctTail(m);
        forall i | 0 <= i < |m| && m[i].0 == k ensures Get(m, k) == m[i].1 {
          if i > 0 {
            assert m[1..][i - 1] == m[i];
          }
        }
      }
    }
  }

  /** Dropping the first property of an object leaves an object, and the
      dropped key occurs nowhere in the rest. */
  lemma DistinctTail(m: Entries)
    requires |m| > 0 && DistinctKeys(m)
    ensures DistinctKeys(m[1..])
    ensures m[0].0 !in KeysOf(m[1..])
  {
    forall i, j | 0 <= i < j < |m[1..]| ensures m[1..][i].0 != m[1..][j].0 {
      assert m[1..][i] == m[i + 1] && m[1..][j] == m[j + 1];
    }
  }
}
