/** The list operations the grains use, on sequences. */
module Sequences {

  /** No element occurs twice. */
  ghost predicate Distinct<T>(s: seq<T>) {
    forall i, j :: 0 <= i < |s| && 0 <= j < |s| && i != j ==> s[i] != s[j]
  }

  /** The elements of s not in drop, in their original order. */
  function Keep<T(==)>(s: seq<T>, drop: set<T>): (r: seq<T>)
    ensures forall i :: 0 <= i < |r| ==> r[i] !in drop
    ensures |r| <= |s|
  {
    if s == [] then []
    else (if s[0] in drop then [] else [s[0]]) + Keep(s[1..], drop)
  }

  /** Keep keeps exactly the elements of s outside drop. */
  lemma {:induction false} KeepMembers<T>(s: seq<T>, drop: set<T>)
    ensures forall i :: 0 <= i < |Keep(s, drop)| ==> Keep(s, drop)[i] in s
    ensures forall i :: 0 <= i < |s| && s[i] !in drop ==> s[i] in Keep(s, drop)
  {
    if s != [] {
      KeepMembers(s[1..], drop);
      var k := Keep(s[1..], drop);
      var r := Keep(s, drop);
      assert r == (if s[0] in drop then [] else [s[0]]) + k;
      forall i | 0 <= i < |r| ensures r[i] in s {
        if s[0] !in drop && i == 0 {
          assert r[0] == s[0];
        } else {
          var d := if s[0] in drop then 0 else 1;
          assert r[i] == k[i - d];
          assert k[i - d] in s[1..];
        }
      }
      forall i | 0 <= i < |s| && s[i] !in drop ensures s[i] in r {
        if i > 0 {
          assert s[i] == s[1..][i - 1];
        }
      }
    }
  }

  /** `List<T>.Remove(x)`: drops the first occurrence of x, if there is one. */
  function RemoveFirst<T(==)>(s: seq<T>, x: T): (r: seq<T>)
    ensures multiset(r) == multiset(s) - multiset{x}
    ensures x !in s ==> r == s
  {
    if s == [] then []
    else if s[0] == x then (assert s == [s[0]] + s[1..]; s[1..])
    else (assert s == [s[0]] + s[1..]; [s[0]] + RemoveFirst(s[1..], x))
  }

  /** Removing an element that Keep drops anyway does not change what Keep keeps. */
  lemma {:induction false} KeepRemoveFirst<T>(s: seq<T>, x: T, drop: set<T>)
    requires x in drop
    ensures Keep(RemoveFirst(s, x), drop) == Keep(s, drop)
  {
    if s != [] && s[0] != x {
      KeepRemoveFirst(s[1..], x, drop);
      assert ([s[0]] + RemoveFirst(s[1..], x))[1..] == RemoveFirst(s[1..], x);
    }
  }

  /**
   * Removing the j-th of the removals still to come keeps every count in s within what the
   * remaining removals take away.
   */
  lemma RemoveFirstOutstanding<T>(s: seq<T>, removals: seq<T>, j: int, among: set<T>)
    requires 0 <= j < |removals|
    requires forall x :: x in among ==> multiset(s)[x] <= multiset(removals[j..])[x]
    ensures forall x :: x in among ==> multiset(RemoveFirst(s, removals[j]))[x] <= multiset(removals[j + 1..])[x]
  {
    assert removals[j..] == [removals[j]] + removals[j + 1..];
  }

  /** Keep with nothing to drop is the identity. */
  lemma {:induction false} KeepAll<T>(s: seq<T>, drop: set<T>)
    requires forall i :: 0 <= i < |s| ==> s[i] !in drop
    ensures Keep(s, drop) == s
  {
    if s != [] {
      KeepAll(s[1..], drop);
    }
  }

  /** Keep changes nothing when no element to drop occurs. */
  lemma KeepNoneOf<T>(s: seq<T>, drop: set<T>)
    requires forall x :: x in drop ==> multiset(s)[x] == 0
    ensures Keep(s, drop) == s
  {
    forall i | 0 <= i < |s| ensures s[i] !in drop {
      assert s[i] in multiset(s);
    }
    KeepAll(s, drop);
  }

  /** Dropping an element that does not occur changes nothing. */
  lemma {:induction false} KeepAbsent<T>(s: seq<T>, drop: set<T>, x: T)
    requires x !in s
    ensures Keep(s, drop + {x}) == Keep(s, drop)
  {
    if s != [] {
      KeepAbsent(s[1..], drop, x);
    }
  }

  /** The tail of a list without repetitions has none either, and lacks the head. */
  lemma DistinctTail<T>(s: seq<T>)
    requires Distinct(s) && s != []
    ensures Distinct(s[1..]) && s[0] !in s[1..]
  {
    var t := s[1..];
    forall i, j | 0 <= i < |t| && 0 <= j < |t| && i != j ensures t[i] != t[j] {
      assert t[i] == s[i + 1] && t[j] == s[j + 1];
    }
    forall i | 0 <= i < |t| ensures t[i] != s[0] {
      assert t[i] == s[i + 1];
    }
  }

  /**
   * On a list without repetitions, removing x from what Keep kept is keeping with x dropped
   * too: repeated `List.Remove` calls filter the list.
   */
  lemma {:induction false} RemoveFirstFromKept<T>(s: seq<T>, drop: set<T>, x: T)
    requires Distinct(s)
    ensures RemoveFirst(Keep(s, drop), x) == Keep(s, drop + {x})
  {
    if s != [] {
      var t := s[1..];
      var d := drop + {x};
      DistinctTail(s);
      RemoveFirstFromKept(t, drop, x);
      var k := Keep(t, drop);
      assert Keep(s, d) == (if s[0] in d then [] else [s[0]]) + Keep(t, d);
      if s[0] in drop {
        assert Keep(s, drop) == k;
      } else if s[0] == x {
        assert Keep(s, drop) == [x] + k;
        assert RemoveFirst([x] + k, x) == k;
        KeepAbsent(t, drop, x);
      } else {
        assert Keep(s, drop) == [s[0]] + k;
        assert ([s[0]] + k)[1..] == k;
        assert RemoveFirst([s[0]] + k, x) == [s[0]] + RemoveFirst(k, x);
      }
    }
  }

  /** How many of the first n elements of s are x, counted one element at a time. */
  function CountIn<T(==)>(s: seq<T>, x: T, n: nat): (c: nat)
    requires n <= |s|
    ensures c <= n
  {
    if n == 0 then 0 else CountIn(s, x, n - 1) + (if s[n - 1] == x then 1 else 0)
  }

  /** Counting one element at a time agrees with the multiplicity in the prefix. */
  lemma {:induction false} CountInPrefix<T>(s: seq<T>, x: T, n: nat)
    requires n <= |s|
    ensures CountIn(s, x, n) == multiset(s[..n])[x]
  {
    if n > 0 {
      CountInPrefix(s, x, n - 1);
      assert s[..n] == s[..n - 1] + [s[n - 1]];
    }
  }

  /** n copies of x. */
  function Repeat<T>(x: T, n: nat): (r: seq<T>)
    ensures |r| == n && forall j :: 0 <= j < n ==> r[j] == x
    ensures multiset(r)[x] == n
  {
    if n == 0 then [] else Repeat(x, n - 1) + [x]
  }

  /** The set of elements of s. */
  function Members<T>(s: seq<T>): set<T> {
    set i | 0 <= i < |s| :: s[i]
  }

  /** The elements of s with x appended. */
  lemma MembersAppend<T>(s: seq<T>, x: T)
    ensures Members(s + [x]) == Members(s) + {x}
  {
    var t := s + [x];
    forall y | y in Members(t) ensures y in Members(s) + {x} {
      var i :| 0 <= i < |t| && t[i] == y;
      if i < |s| {
        assert s[i] == y;
      }
    }
    forall y | y in Members(s) ensures y in Members(t) {
      var i :| 0 <= i < |s| && s[i] == y;
      assert t[i] == y;
    }
    assert t[|s|] == x;
  }

  /** The elements of a prefix of t, one element longer. */
  lemma MembersStep<T>(t: seq<T>, j: int)
    requires 0 <= j < |t|
    ensures Members(t[..j + 1]) == Members(t[..j]) + {t[j]}
  {
    var a, b := t[..j + 1], t[..j];
    forall x | x in Members(a) ensures x in Members(b) + {t[j]} {
      var i :| 0 <= i < |a| && a[i] == x;
      if i < j {
        assert b[i] == x;
      }
    }
    forall x | x in Members(b) + {t[j]} ensures x in Members(a) {
      if x == t[j] {
        assert a[j] == x;
      } else {
        var i :| 0 <= i < |b| && b[i] == x;
        assert a[i] == x;
      }
    }
  }

  /** `List.Remove` of each of the first n elements of t in turn. */
  function RemoveEach<T(==)>(s: seq<T>, t: seq<T>, n: nat): seq<T>
    requires n <= |t|
  {
    if n == 0 then s else RemoveFirst(RemoveEach(s, t, n - 1), t[n - 1])
  }

  /** The inductive step of RemoveEachKeeps. */
  lemma {:induction false} RemoveEachNext<T>(s: seq<T>, t: seq<T>, n: nat)
    requires Distinct(s) && 0 < n <= |t|
    requires RemoveEach(s, t, n - 1) == Keep(s, Members(t[..n - 1]))
    ensures RemoveEach(s, t, n) == Keep(s, Members(t[..n]))
  {
    var j := n - 1;
    var before := Members(t[..j]);
    var after := Members(t[..n]);
    MembersStep(t, j);
    assert t[..j + 1] == t[..n];
    assert after == before + {t[j]};
    RemoveFirstFromKept(s, before, t[j]);
  }

  /** On a list without repetitions, removing the first n elements of t keeps exactly the others. */
  lemma {:induction false} RemoveEachKeeps<T>(s: seq<T>, t: seq<T>, n: nat)
    requires Distinct(s) && n <= |t|
    ensures RemoveEach(s, t, n) == Keep(s, Members(t[..n]))
  {
    if n == 0 {
      KeepAll(s, {});
      assert Members(t[..0]) == {};
      assert RemoveEach(s, t, 0) == s;
    } else {
      RemoveEachKeeps(s, t, n - 1);
      RemoveEachNext(s, t, n);
    }
  }

  /** Keep preserves the absence of repetitions. */
  lemma {:induction false} KeepDistinct<T>(s: seq<T>, drop: set<T>)
    requires Distinct(s)
    ensures Distinct(Keep(s, drop))
  {
    if s != [] {
      var t := s[1..];
      DistinctTail(s);
      KeepDistinct(t, drop);
      var k := Keep(t, drop);
      var r := Keep(s, drop);
      KeepMembers(t, drop);
      if s[0] !in drop {
        assert r == [s[0]] + k;
        forall i, j | 0 <= i < |r| && 0 <= j < |r| && i != j ensures r[i] != r[j] {
          if i > 0 && j > 0 {
            assert r[i] == k[i - 1] && r[j] == k[j - 1];
          } else if i == 0 {
            assert r[j] == k[j - 1] && r[j] in t;
          } else {
            assert r[i] == k[i - 1] && r[i] in t;
          }
        }
      }
    }
  }
}
