/** Duplicate-free key orders, cyclic scans over them, and sub-sequences of them. */
module Cyclic {

  /** No element occurs twice; see NoDupPairwise. */
  predicate NoDup<T(==)>(s: seq<T>) {
    s == [] || (s[|s| - 1] !in s[..|s| - 1] && NoDup(s[..|s| - 1]))
  }

  lemma {:induction false} NoDupPairwise<T>(s: seq<T>)
    ensures NoDup(s) <==> forall i, j :: 0 <= i < j < |s| ==> s[i] != s[j]
  {
    if s == [] {
    } else {
      var m := |s| - 1;
      NoDupPairwise(s[..m]);
      if NoDup(s) {
        forall i, j | 0 <= i < j < |s| ensures s[i] != s[j] {
          assert s[i] == s[..m][i];
          assert j < m ==> s[j] == s[..m][j];
        }
      }
      if forall i, j :: 0 <= i < j < |s| ==> s[i] != s[j] {
        assert forall i :: 0 <= i < m ==> s[..m][i] == s[i];
        assert s[m] !in s[..m];
      }
    }
  }

  lemma {:induction false} NoDupIndex<T>(s: seq<T>, i: nat, j: nat)
    requires NoDup(s) && i < |s| && j < |s|
    ensures s[i] == s[j] <==> i == j
  {
    NoDupPairwise(s);
  }

  lemma {:induction false} NoDupTake<T>(s: seq<T>, k: nat)
    requires NoDup(s) && k <= |s|
    ensures NoDup(s[..k])
    ensures k < |s| ==> s[k] !in s[..k]
  {
    NoDupPairwise(s);
    NoDupPairwise(s[..k]);
  }

  /** `order` lists every element of `keys` exactly once: what iterating a hash map's keys yields. */
  predicate IsOrder<T(==)>(order: seq<T>, keys: set<T>) {
    && NoDup(order)
    && Elements(order) == keys
  }

  function Elements<T(==)>(s: seq<T>): set<T> {
    if s == [] then {} else Elements(s[..|s| - 1]) + {s[|s| - 1]}
  }

  lemma {:induction false} ElementsMember<T(!new)>(s: seq<T>)
    ensures forall x :: x in Elements(s) <==> x in s
  {
    if s == [] {
    } else {
      var m := |s| - 1;
      ElementsMember(s[..m]);
      assert s == s[..m] + [s[m]];
    }
  }

  /** Every finite key set has such an order, so runs with commands in them exist. */
  lemma {:induction false} OrderExists<T>(keys: set<T>) returns (order: seq<T>)
    ensures IsOrder(order, keys)
    decreases keys
  {
    if keys == {} {
      order := [];
    } else {
      var x :| x in keys;
      var rest := OrderExists(keys - {x});
      order := rest + [x];
      assert order[..|rest|] == rest;
      NoDupExtends(rest, x, keys);
    }
  }

  lemma {:induction false} NoDupExtends<T>(rest: seq<T>, x: T, keys: set<T>)
    requires x in keys && IsOrder(rest, keys - {x})
    ensures x !in rest
  {
    forall i | 0 <= i < |rest| ensures rest[i] != x {
      InElements(rest, i);
    }
  }

  lemma {:induction false} InElements<T>(s: seq<T>, i: nat)
    requires i < |s|
    ensures s[i] in Elements(s)
  {
    var m := |s| - 1;
    if i == m {
    } else {
      InElements(s[..m], i);
    }
  }

  /** `s` read cyclically from position `c`. */
  function Rotate<T>(s: seq<T>, c: nat): (r: seq<T>)
    requires c < |s|
    ensures |r| == |s|
  {
    seq(|s|, k requires 0 <= k < |s| => s[Wrap(c + k, |s|)])
  }

  /** The elements of `s` that lie in `keep`, in their order in `s`. */
  function Restrict<T(==)>(s: seq<T>, keep: set<T>): (r: seq<T>)
    ensures |r| <= |s|
  {
    if s == [] then []
    else
      var m := |s| - 1;
      Restrict(s[..m], keep) + if s[m] in keep then [s[m]] else []
  }

  /** The position of the first occurrence of `x` in `s`. */
  function IndexOf<T(==)>(s: seq<T>, x: T): (r: nat)
    requires x in s
    ensures r < |s| && s[r] == x
    ensures forall j :: 0 <= j < r ==> s[j] != x
  {
    if s[0] == x then 0 else 1 + IndexOf(s[1..], x)
  }

  /** The remainder of `i` by `n`, by repeated subtraction; see WrapIsRemainder. */
  function Wrap(i: nat, n: nat): (r: nat)
    requires 0 < n
    ensures r < n
    decreases i
  {
    if i < n then i else Wrap(i - n, n)
  }

  lemma {:induction false} WrapIsRemainder(i: nat, n: nat)
    requires 0 < n
    ensures Wrap(i, n) == i % n
    decreases i
  {
    if i < n {
    } else {
      WrapIsRemainder(i - n, n);
      ModMinus(i, n);
    }
  }

  lemma {:induction false} ModMinus(i: nat, n: nat)
    requires 0 < n <= i
    ensures i % n == (i - n) % n
    ensures i / n == (i - n) / n + 1
  {
    var q, r := (i - n) / n, (i - n) % n;
    assert i == (q + 1) * n + r;
    var d: int := i / n - (q + 1);
    assert d * n == r - i % n;
    assert d > 0 ==> (d - 1) * n >= 0;
    assert d < 0 ==> (d + 1) * n <= 0;
  }

  lemma {:induction false} WrapAdd(a: nat, b: nat, n: nat)
    requires 0 < n
    ensures Wrap(Wrap(a, n) + b, n) == Wrap(a + b, n)
    decreases a
  {
    if a < n {
    } else {
      WrapAdd(a - n, b, n);
    }
  }

  /** Two steps of subtraction at most: where a scan from `c` stands at attempt `k`. */
  lemma {:induction false} WrapNear(i: nat, n: nat)
    requires 0 < n && i < n + n
    ensures Wrap(i, n) == if i < n then i else i - n
  {
  }

  /** Reading cyclically from `c` is the tail from `c` followed by the head before `c`. */
  lemma {:induction false} RotateSplits<T>(s: seq<T>, c: nat)
    requires c < |s|
    ensures Rotate(s, c) == s[c..] + s[..c]
  {
    forall k | 0 <= k < |s| ensures Rotate(s, c)[k] == (s[c..] + s[..c])[k] {
      WrapNear(c + k, |s|);
    }
  }

  lemma {:induction false} RotateElements<T(!new)>(s: seq<T>, c: nat)
    requires c < |s|
    ensures Elements(Rotate(s, c)) == Elements(s)
  {
    RotateSplits(s, c);
    ElementsMember(s);
    ElementsMember(Rotate(s, c));
    assert s == s[..c] + s[c..];
  }

  lemma {:induction false} RotateNoDup<T>(s: seq<T>, c: nat)
    requires NoDup(s) && c < |s|
    ensures NoDup(Rotate(s, c))
  {
    var r := Rotate(s, c);
    NoDupPairwise(s);
    forall i, j | 0 <= i < j < |r| ensures r[i] != r[j] {
      WrapNear(c + i, |s|);
      WrapNear(c + j, |s|);
    }
    NoDupPairwise(r);
  }

  /** A cyclic scan visits every key once: the scan index is injective modulo the key count. */
  lemma {:induction false} RotateIsOrder<T(!new)>(s: seq<T>, c: nat, keys: set<T>)
    requires IsOrder(s, keys) && c < |s|
    ensures IsOrder(Rotate(s, c), keys)
  {
    RotateElements(s, c);
    RotateNoDup(s, c);
  }

  lemma {:induction false} ElementsHead<T(!new)>(s: seq<T>)
    requires s != []
    ensures Elements(s) == {s[0]} + Elements(s[1..])
  {
    var m := |s| - 1;
    if m == 0 {
      assert s[..0] == [] && s[1..] == [];
    } else {
      ElementsHead(s[..m]);
      assert s[1..][..m - 1] == s[..m][1..];
    }
  }

  lemma {:induction false} NoDupHead<T>(s: seq<T>)
    requires s != []
    ensures NoDup(s) <==> s[0] !in s[1..] && NoDup(s[1..])
  {
    var m := |s| - 1;
    if m == 0 {
      assert s[..0] == [] && s[1..] == [];
    } else {
      NoDupHead(s[..m]);
      assert s[1..][..m - 1] == s[..m][1..];
      assert s[..m] == [s[0]] + s[..m][1..];
      assert s[1..] == s[..m][1..] + [s[m]];
    }
  }

  lemma {:induction false} OrderLength<T(!new)>(order: seq<T>, keys: set<T>)
    requires IsOrder(order, keys)
    ensures |order| == |keys|
  {
    if order == [] {
    } else {
      var m := |order| - 1;
      ElementsMember(order[..m]);
      OrderLength(order[..m], Elements(order[..m]));
    }
  }

  lemma {:induction false} RestrictMember<T(!new)>(s: seq<T>, keep: set<T>)
    ensures forall x :: x in Restrict(s, keep) <==> x in s && x in keep
  {
    if s == [] {
    } else {
      var m := |s| - 1;
      assert s == s[..m] + [s[m]];
      RestrictMember(s[..m], keep);
    }
  }

  lemma {:induction false} RestrictAppend<T>(a: seq<T>, b: seq<T>, keep: set<T>)
    ensures Restrict(a + b, keep) == Restrict(a, keep) + Restrict(b, keep)
  {
    if b == [] {
      assert a + b == a;
    } else {
      var m := |b| - 1;
      var tail := if b[m] in keep then [b[m]] else [];
      calc {
        Restrict(a + b, keep);
        { assert (a + b)[..|a| + m] == a + b[..m]; }
        Restrict(a + b[..m], keep) + tail;
        { RestrictAppend(a, b[..m], keep); }
        Restrict(a, keep) + Restrict(b[..m], keep) + tail;
        { assert Restrict(b, keep) == Restrict(b[..m], keep) + tail; }
        Restrict(a, keep) + Restrict(b, keep);
      }
    }
  }

  lemma {:induction false} RestrictNoDup<T(!new)>(s: seq<T>, keep: set<T>)
    requires NoDup(s)
    ensures NoDup(Restrict(s, keep))
  {
    if s == [] {
    } else {
      var m := |s| - 1;
      RestrictNoDup(s[..m], keep);
      RestrictMember(s[..m], keep);
      if s[m] in keep {
        NoDupSnoc(Restrict(s[..m], keep), s[m]);
      } else {
        assert Restrict(s, keep) == Restrict(s[..m], keep);
      }
    }
  }

  lemma {:induction false} NoDupSnoc<T>(s: seq<T>, x: T)
    requires NoDup(s) && x !in s
    ensures NoDup(s + [x])
  {
    assert (s + [x])[..|s|] == s;
  }
}
