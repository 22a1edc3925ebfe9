/** Sequences as lists without repetitions: what wl_list insertion and removal need. */
module Seqs {

  datatype Option<+T> = None | Some(value: T)

  ghost predicate Distinct<T>(s: seq<T>) {
    forall i, j :: 0 <= i < j < |s| ==> s[i] != s[j]
  }

  function Members<T(==)>(s: seq<T>): set<T> {
    set x | x in s
  }

  /** The list with the elements of `gone` unlinked. */
  function Without<T(==, !new)>(s: seq<T>, gone: set<T>): (r: seq<T>)
    ensures forall x :: x in r <==> x in s && x !in gone
    ensures Distinct(s) ==> Distinct(r)
  {
    if s == [] then []
    else if s[0] in gone then Without(s[1..], gone)
    else [s[0]] + Without(s[1..], gone)
  }

  lemma {:induction false} WithoutTwice<T(!new)>(s: seq<T>, a: set<T>, b: set<T>)
    ensures Without(Without(s, a), b) == Without(s, a + b)
  {
    if s != [] {
      WithoutTwice(s[1..], a, b);
      if s[0] !in a {
        assert Without(s, a)[1..] == Without(s[1..], a);
      }
    }
  }

  lemma {:induction false} WithoutNothing<T(!new)>(s: seq<T>, gone: set<T>)
    requires forall x :: x in s ==> x !in gone
    ensures Without(s, gone) == s
  {
    if s != [] {
      WithoutNothing(s[1..], gone);
    }
  }

  lemma NothingGone<T(!new)>(s: seq<T>, gone: set<T>)
    requires gone == {}
    ensures Without(s, gone) == s
  {
    WithoutNothing(s, gone);
  }

  /** Unlinking an element that is there makes the list shorter. */
  lemma {:induction false} WithoutShorter<T(!new)>(s: seq<T>, x: T)
    ensures |Without(s, {x})| <= |s|
    ensures x in s ==> |Without(s, {x})| < |s|
  {
    if s != [] {
      WithoutShorter(s[1..], x);
    }
  }

  ghost predicate Ascending<T>(s: seq<T>, key: map<T, nat>) {
    && (forall i :: 0 <= i < |s| ==> s[i] in key)
    && (forall i, j :: 0 <= i < j < |s| ==> key[s[i]] < key[s[j]])
  }

  /** Unlinking keeps the order of what stays. */
  lemma {:induction false} WithoutKeepsOrder<T(!new)>(s: seq<T>, gone: set<T>, key: map<T, nat>)
    requires Ascending(s, key)
    ensures Ascending(Without(s, gone), key)
  {
    if s != [] {
      var rest := Without(s[1..], gone);
      assert Ascending(s[1..], key);
      WithoutKeepsOrder(s[1..], gone, key);
      if s[0] !in gone {
        forall j | 0 <= j < |rest|
          ensures key[s[0]] < key[rest[j]]
        {
          assert rest[j] in s[1..];
        }
        assert Without(s, gone) == [s[0]] + rest;
      }
    }
  }

  lemma FirstIsIn<T>(s: seq<T>)
    ensures s == [] || s[0] in s
  {
  }
}
