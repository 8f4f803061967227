/** Admission to a table that never forgets and holds at most max entries: first come, first
    served. */
module Admission {
  import opened SearchTree

  // One arrival: nobody, somebody already in, refused, or let in.
  function Admit<T>(keys: set<T>, count: nat, o: Option<T>, max: nat): (r: (set<T>, nat)) {
    if o.None? || o.value in keys || count == max then (keys, count) else (keys + {o.value}, count + 1)
  }

  function AdmitAll<T>(keys: set<T>, count: nat, os: seq<Option<T>>, max: nat): (r: (set<T>, nat))
    decreases |os|
  {
    if os == [] then (keys, count)
    else
      var (k, n) := Admit(keys, count, os[0], max);
      AdmitAll(k, n, os[1..], max)
  }

  ghost function Named<T(!new)>(os: seq<Option<T>>): (s: set<T>) {
    set o | o in os && o.Some? :: o.value
  }

  function Least(a: nat, b: nat): (r: nat) { if a < b then a else b }

  lemma Larger<T>(a: set<T>, b: set<T>)
    requires a <= b
    ensures |a| <= |b|
    ensures |a| == |b| ==> a == b
  {
    assert b == a + (b - a);
  }

  lemma NamedUnfolds<T(!new)>(os: seq<Option<T>>)
    requires os != []
    ensures Named(os) == Named(os[1..]) + (if os[0].Some? then {os[0].value} else {})
  {
    assert os == [os[0]] + os[1..];
    if os[0].Some? { assert os[0] in os; }
  }

  // Those in stay in, only those who came are in, and as many as there is room for.
  lemma {:induction false} AdmitsFirst<T(!new)>(keys: set<T>, count: nat, os: seq<Option<T>>, max: nat)
    requires count == |keys| <= max
    ensures var (r, n) := AdmitAll(keys, count, os, max);
            keys <= r <= keys + Named(os) && n == |r| == Least(|keys + Named(os)|, max)
    decreases |os|
  {
    if os == [] {
      assert keys + Named(os) == keys;
    } else {
      var (k, n) := Admit(keys, count, os[0], max);
      NamedUnfolds(os);
      AdmitsFirst(k, n, os[1..], max);
      if os[0].Some? && os[0].value !in keys && count == max {
        Larger(keys, keys + Named(os));
        Larger(keys, keys + Named(os[1..]));
      } else {
        assert k + Named(os[1..]) == keys + Named(os);
      }
    }
  }

  // Admission, member by member.
  lemma AdmitsMembers<T(!new)>(keys: set<T>, count: nat, o: Option<T>, max: nat, r: set<T>, n: nat)
    requires forall c :: c in r <==> c in keys || (o == Some(c) && count != max)
    requires n == if o.None? || o.value in keys || count == max then count else count + 1
    ensures (r, n) == Admit(keys, count, o, max)
  {
    assert r == Admit(keys, count, o, max).0;
  }

  // Everybody is in exactly when there is room for everybody; otherwise as many as there is room for.
  ghost predicate Admits<T(!new)>(keys: set<T>, all: set<T>, max: nat) {
    keys <= all && |keys| == Least(|all|, max) && (keys == all <==> |all| <= max)
  }

  lemma AllInIff<T(!new)>(keys: set<T>, os: seq<Option<T>>, max: nat)
    requires keys == AdmitAll({}, 0, os, max).0
    ensures Admits(keys, Named(os), max)
  {
    AdmitsFirst({}, 0, os, max);
    assert {} + Named(os) == Named(os);
    Larger(keys, Named(os));
  }

  // A full table stays as it is.
  lemma {:induction false} FullStays<T>(keys: set<T>, os: seq<Option<T>>, max: nat)
    ensures AdmitAll(keys, max, os, max) == (keys, max)
  {
    if os != [] { FullStays(keys, os[1..], max); }
  }
}
