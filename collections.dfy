/** Facts about sequences, sets and maps of keys that both record stores need:
    distinct sequences, the ascending enumeration of a set of integer ids,
    enumeration of a map's keys in unspecified order, and fresh keys. */
module Collections {

  /** The set of elements of a sequence. */
  function Elements<T(!new)>(s: seq<T>): (r: set<T>)
    ensures forall x :: x in r <==> x in s
  {
    set x | x in s
  }

  /** No element occurs twice. */
  predicate Distinct<T(==)>(s: seq<T>)
  {
    forall i, j :: 0 <= i < j < |s| ==> s[i] != s[j]
  }

  /** A position at which `x` occurs in `s`. */
  function IndexOf<T(==)>(s: seq<T>, x: T): (i: int)
    requires x in s
    ensures 0 <= i < |s| && s[i] == x
  {
    if s[0] == x then 0 else 1 + IndexOf(s[1..], x)
  }

  predicate StrictlyAscending(s: seq<int>)
  {
    forall i, j :: 0 <= i < j < |s| ==> s[i] < s[j]
  }

  /** A sequence has at most as many distinct elements as it is long, and
      exactly as many precisely when no element repeats. */
  lemma {:induction false} DistinctCard<T(!new)>(s: seq<T>)
    ensures |Elements(s)| <= |s|
    ensures |Elements(s)| == |s| <==> Distinct(s)
  {
    if |s| > 0 {
      var t := s[1..];
      DistinctCard(t);
      assert Elements(s) == Elements(t) + {s[0]};
      if s[0] in t {
        assert Elements(s) == Elements(t);
        var k :| 0 <= k < |t| && t[k] == s[0];
        assert s[0] == s[k + 1];
      } else {
        assert |Elements(s)| == |Elements(t)| + 1;
        if Distinct(t) {
          forall i, j | 0 <= i < j < |s|
            ensures s[i] != s[j]
          {
            assert s[j] == t[j - 1];
            if i > 0 {
              assert s[i] == t[i - 1];
            }
          }
        }
        if Distinct(s) {
          forall i, j | 0 <= i < j < |t|
            ensures t[i] != t[j]
          {
            assert t[i] == s[i + 1] && t[j] == s[j + 1];
          }
        }
      }
    }
  }

  /** A sequence as long as a distinct one with the same elements is distinct too. */
  lemma DistinctLikeSameSize<T(!new)>(a: seq<T>, b: seq<T>)
    requires Distinct(b) && |a| == |b|
    requires forall x :: x in a <==> x in b
    ensures Distinct(a)
  {
    assert Elements(a) == Elements(b);
    DistinctCard(a);
    DistinctCard(b);
  }

  lemma {:induction false} MinExists(s: set<int>)
    requires s != {}
    ensures exists m :: m in s && forall x :: x in s ==> m <= x
  {
    // a non-empty set has an element to pick
    assert exists x :: x in s by {
      if forall x :: x !in s {
        assert false;
      }
    }
    var y :| y in s;
    var t := s - {y};
    if t == {} {
      forall x | x in s
        ensures y <= x
      {
        assert x == y || x in t;
      }
    } else {
      MinExists(t);
      var m :| m in t && forall x :: x in t ==> m <= x;
      var least := if y < m then y else m;
      forall x | x in s
        ensures least <= x
      {
        assert x == y || x in t;
      }
      assert least in s;
    }
  }

  /** The least element of a non-empty set of ids. */
  function Min(s: set<int>): (m: int)
    requires s != {}
    ensures m in s && forall x :: x in s ==> m <= x
  {
    MinExists(s);
    var m :| m in s && forall x :: x in s ==> m <= x;
    m
  }

  /** The ids of a set, listed once each in ascending order (an ORDER BY id). */
  function SortedIds(s: set<int>): (r: seq<int>)
    ensures StrictlyAscending(r)
    ensures forall x :: x in r <==> x in s
    ensures |r| == |s|
    decreases s
  {
    if s == {} then []
    else
      var m := Min(s);
      [m] + SortedIds(s - {m})
  }

  /** Two ascending sequences without repeats that hold the same ids are equal. */
  lemma {:induction false} StrictlyAscendingUnique(a: seq<int>, b: seq<int>)
    requires StrictlyAscending(a) && StrictlyAscending(b)
    requires forall x :: x in a <==> x in b
    ensures a == b
  {
    assert Elements(a) == Elements(b);
    DistinctCard(a);
    DistinctCard(b);
    if a != [] {
      assert a[0] in a;
      assert b != [] by {
        assert a[0] in b;
      }
      assert b[0] in b;
      assert a[0] == b[0] by {
        assert a[0] in b;
        assert b[0] in a;
      }
      forall x
        ensures x in a[1..] <==> x in b[1..]
      {
        assert x in a[1..] <==> x in a && x != a[0];
        assert x in b[1..] <==> x in b && x != b[0];
      }
      StrictlyAscendingUnique(a[1..], b[1..]);
      assert a == [a[0]] + a[1..] && b == [b[0]] + b[1..];
    }
  }

  /** The keys of a map, each once, in an order the store does not specify. */
  method KeysOf<K(!new), V>(m: map<K, V>) returns (ks: seq<K>)
    ensures Distinct(ks)
    ensures forall k :: k in ks <==> k in m
    ensures |ks| == |m|
  {
    ks := [];
    var rest := m.Keys;
    while rest != {}
      invariant rest <= m.Keys
      invariant forall k :: k in ks <==> k in m && k !in rest
      invariant Distinct(ks)
      decreases rest
    {
      var k :| k in rest;
      ks := ks + [k];
      rest := rest - {k};
    }
    DistinctCard(ks);
    assert Elements(ks) == m.Keys;
  }

  /** Some integer id is not yet taken. */
  lemma FreshIntExists(keys: set<int>)
    ensures exists id :: id !in keys
  {
    if keys != {} {
      assert Min(keys) - 1 !in keys;
    } else {
      assert 0 !in keys;
    }
  }

  /** A length that no string in the set reaches. */
  lemma {:induction false} LongerThanAll(keys: set<string>) returns (n: nat)
    ensures forall k :: k in keys ==> |k| < n
  {
    if keys == {} {
      n := 0;
    } else {
      var k :| k in keys;
      var n' := LongerThanAll(keys - {k});
      n := if n' <= |k| then |k| + 1 else n';
    }
  }

  /** Some string id is not yet taken. */
  lemma FreshStringExists(keys: set<string>)
    ensures exists id: string :: id !in keys
  {
    var n := LongerThanAll(keys);
    var s: string := seq(n, _ => 'x');
    assert s !in keys;
  }
}
