/**
 * `req.query` and the other plain objects the service builds URLs from: an ordered
 * list of key/value pairs with distinct keys (the enumeration order of a JavaScript
 * object), and `querystring.stringify` over it.
 */
module QueryString {
  import opened Common
  import opened JsStrings

  type Query = seq<(string, string)>

  /** A JavaScript object never holds a key twice. */
  predicate DistinctKeys(q: Query) {
    forall i, j :: 0 <= i < j < |q| ==> q[i].0 != q[j].0
  }

  predicate HasKey(q: Query, k: string) {
    exists i :: 0 <= i < |q| && q[i].0 == k
  }

  /** `q[k]`, `None` when `q[k]` is `undefined`. */
  function Lookup(q: Query, k: string): (r: Option<string>)
    ensures r.None? <==> !HasKey(q, k)
    ensures r.Some? ==> (k, r.value) in q
  {
    if q == [] then None
    else if q[0].0 == k then Some(q[0].1)
    else
      assert forall i :: 1 <= i < |q| ==> q[i] == q[1..][i - 1];
      Lookup(q[1..], k)
  }

  /** JavaScript truthiness of `q[k]`: present and not the empty string. */
  predicate Truthy(q: Query, k: string) {
    Lookup(q, k).Some? && Lookup(q, k).value != ""
  }

  /** `delete q[k]`. */
  function Remove(q: Query, k: string): (r: Query)
    ensures |r| <= |q|
    ensures !HasKey(r, k)
    ensures forall i :: 0 <= i < |r| ==> r[i] in q
  {
    if q == [] then []
    else if q[0].0 == k then Remove(q[1..], k)
    else [q[0]] + Remove(q[1..], k)
  }

  /** `q[k] = v`: an existing key keeps its place, a new key goes last. */
  function Assign(q: Query, k: string, v: string): (r: Query)
    ensures |r| == if HasKey(q, k) then |q| else |q| + 1
  {
    if q == [] then [(k, v)]
    else if q[0].0 == k then [(k, v)] + q[1..]
    else [q[0]] + Assign(q[1..], k, v)
  }

  /** The keys of `q` in enumeration order. */
  function Keys(q: Query): (ks: seq<string>)
    ensures |ks| == |q|
  {
    if q == [] then [] else [q[0].0] + Keys(q[1..])
  }

  /** `querystring.stringify(q)`, leaving out percent-encoding. */
  function Stringify(q: Query): string {
    Join(seq(|q|, i requires 0 <= i < |q| => q[i].0 + "=" + q[i].1), "&")
  }

  lemma {:induction false} LookupRemove(q: Query, k: string, other: string)
    ensures Lookup(Remove(q, k), k) == None
    ensures other != k ==> Lookup(Remove(q, k), other) == Lookup(q, other)
  {
    if q != [] {
      LookupRemove(q[1..], k, other);
    }
  }

  /** Deleting a key keeps the remaining keys in their order. */
  lemma {:induction false} KeysRemove(q: Query, k: string)
    ensures Keys(Remove(q, k)) == Filter(Keys(q), k)
  {
    if q != [] {
      KeysRemove(q[1..], k);
    }
  }

  /** `ks` without `k`, order kept. */
  function Filter(ks: seq<string>, k: string): (r: seq<string>)
    ensures k !in r
    ensures forall x :: x in r <==> x in ks && x != k
  {
    if ks == [] then [] else if ks[0] == k then Filter(ks[1..], k) else [ks[0]] + Filter(ks[1..], k)
  }

  lemma {:induction false} LookupAssign(q: Query, k: string, v: string, other: string)
    ensures Lookup(Assign(q, k, v), k) == Some(v)
    ensures other != k ==> Lookup(Assign(q, k, v), other) == Lookup(q, other)
  {
    if q != [] && q[0].0 != k {
      LookupAssign(q[1..], k, v, other);
    }
  }

  /** Assigning a key the object does not hold appends it. */
  lemma {:induction false} AssignNewKey(q: Query, k: string, v: string)
    requires !HasKey(q, k)
    ensures Assign(q, k, v) == q + [(k, v)]
  {
    if q != [] {
      assert q[0].0 != k;
      assert !HasKey(q[1..], k) by {
        forall i | 0 <= i < |q[1..]| ensures q[1..][i].0 != k {
          assert q[1..][i] == q[i + 1];
        }
      }
      AssignNewKey(q[1..], k, v);
      assert [q[0]] + (q[1..] + [(k, v)]) == q + [(k, v)];
    }
  }

  /** Assigning keeps the key order: an existing key stays in place, a new one is appended. */
  lemma {:induction false} KeysAssign(q: Query, k: string, v: string)
    ensures Keys(Assign(q, k, v)) == if k in Keys(q) then Keys(q) else Keys(q) + [k]
  {
    if q != [] && q[0].0 != k {
      KeysAssign(q[1..], k, v);
    }
  }

  /** The tail of an object holds no key of its head. */
  lemma HeadNotInTail(q: Query)
    requires q != [] && DistinctKeys(q)
    ensures forall x :: x in q[1..] ==> x.0 != q[0].0
    ensures DistinctKeys(q[1..])
  {
    forall x | x in q[1..] ensures x.0 != q[0].0 {
      var j :| 0 <= j < |q[1..]| && q[1..][j] == x;
      assert q[j + 1] == x;
    }
  }

  /** `delete` keeps the keys distinct. */
  lemma {:induction false} DistinctAfterRemove(q: Query, k: string)
    requires DistinctKeys(q)
    ensures DistinctKeys(Remove(q, k))
  {
    if q != [] {
      HeadNotInTail(q);
      DistinctAfterRemove(q[1..], k);
    }
  }

  /** Assignment keeps the keys distinct. */
  lemma {:induction false} DistinctAfterAssign(q: Query, k: string, v: string)
    requires DistinctKeys(q)
    ensures DistinctKeys(Assign(q, k, v))
  {
    if q != [] {
      HeadNotInTail(q);
      DistinctAfterAssign(q[1..], k, v);
      if q[0].0 != k {
        var a := Assign(q[1..], k, v);
        KeysAssign(q[1..], k, v);
        KeysHas(q[1..]);
        KeysHas(a);
        forall i | 0 <= i < |a| ensures a[i].0 != q[0].0 {
          assert a[i].0 in Keys(a);
        }
      }
    }
  }


  lemma {:induction false} KeysHas(q: Query)
    ensures forall x :: x in Keys(q) <==> HasKey(q, x)
  {
    if q != [] {
      KeysHas(q[1..]);
      forall x ensures x in Keys(q) <==> HasKey(q, x) {
        if HasKey(q[1..], x) {
          var i :| 0 <= i < |q[1..]| && q[1..][i].0 == x;
          assert q[i + 1].0 == x;
        }
        if HasKey(q, x) && q[0].0 != x {
          var i :| 0 <= i < |q| && q[i].0 == x;
          assert q[1..][i - 1].0 == x;
        }
      }
    }
  }

  /** The serialised query is empty exactly when the query has no keys. */
  lemma StringifyEmpty(q: Query)
    ensures Stringify(q) == "" <==> q == []
  {
    var pairs := seq(|q|, i requires 0 <= i < |q| => q[i].0 + "=" + q[i].1);
    if |q| >= 1 {
      JoinNonEmpty(pairs, "&");
    }
  }

  lemma {:induction false} JoinNonEmpty(parts: seq<string>, sep: string)
    requires |parts| >= 1 && parts[0] != ""
    ensures Join(parts, sep) != ""
  {
    if |parts| > 1 {
      assert Join(parts, sep) == parts[0] + sep + Join(parts[1..], sep);
    }
  }

  /** `querystring.stringify` on objects with one and with two keys. */
  lemma StringifySmall(k1: string, v1: string, k2: string, v2: string)
    ensures Stringify([(k1, v1)]) == k1 + "=" + v1
    ensures Stringify([(k1, v1), (k2, v2)]) == k1 + "=" + v1 + "&" + k2 + "=" + v2
  {
    var one := seq(1, i requires 0 <= i < 1 => [(k1, v1)][i].0 + "=" + [(k1, v1)][i].1);
    assert one == [k1 + "=" + v1];
    var q := [(k1, v1), (k2, v2)];
    var two := seq(2, i requires 0 <= i < 2 => q[i].0 + "=" + q[i].1);
    assert two == [k1 + "=" + v1, k2 + "=" + v2];
    assert two[1..] == [k2 + "=" + v2];
    assert Join(two, "&") == (k1 + "=" + v1) + "&" + (k2 + "=" + v2);
  }
}
