/** Vocabulary shared by every component of the node model. */
module Basics {

  /** 32-byte hashes and addresses, ordered as the source orders their bytes. */
  type Id = nat

  const TWO_64 := 0x1_0000_0000_0000_0000

  type u64 = x: int | 0 <= x < TWO_64

  datatype Option<+T> = None | Some(value: T)

  /** Result of an operation the node may abort: `Panic` stands for a Rust panic. */
  datatype Outcome<+T> = Ok(value: T) | Panic

  ghost predicate NoDup<T>(s: seq<T>) {
    forall i, j :: 0 <= i < j < |s| ==> s[i] != s[j]
  }

  ghost predicate DistinctKeys<T>(s: seq<T>, key: T -> Id) {
    forall i, j :: 0 <= i < j < |s| ==> key(s[i]) != key(s[j])
  }

  function Self(x: Id): Id { x }

  /** The elements of `s` whose key is outside `out`, in order. */
  function Keep<T(!new)>(s: seq<T>, key: T -> Id, out: set<Id>): (r: seq<T>)
    ensures forall x :: x in r <==> x in s && key(x) !in out
    ensures |r| <= |s|
  {
    if s == [] then []
    else if key(s[0]) in out then Keep(s[1..], key, out)
    else [s[0]] + Keep(s[1..], key, out)
  }

  function RemoveAt<T>(s: seq<T>, i: nat): (r: seq<T>)
    requires i < |s|
  {
    s[..i] + s[i + 1..]
  }

  lemma {:induction false} KeepDistinct<T(!new)>(s: seq<T>, key: T -> Id, out: set<Id>)
    requires DistinctKeys(s, key)
    ensures DistinctKeys(Keep(s, key, out), key)
  {
    if s != [] {
      KeepDistinct(s[1..], key, out);
      var k := Keep(s[1..], key, out);
      forall i | 0 <= i < |k| ensures key(k[i]) != key(s[0]) {
        assert k[i] in s[1..];
      }
    }
  }

  lemma {:induction false} KeepTwice<T(!new)>(s: seq<T>, key: T -> Id, a: set<Id>, b: set<Id>)
    ensures Keep(Keep(s, key, a), key, b) == Keep(s, key, a + b)
  {
    if s != [] {
      KeepTwice(s[1..], key, a, b);
      if key(s[0]) !in a {
        assert Keep(s, key, a)[1..] == Keep(s[1..], key, a);
      }
    }
  }

  lemma {:induction false} KeepAll<T(!new)>(s: seq<T>, key: T -> Id, out: set<Id>)
    requires forall x :: x in s ==> key(x) !in out
    ensures Keep(s, key, out) == s
  {
    if s != [] {
      KeepAll(s[1..], key, out);
    }
  }

  /** Removing the one element with key `k` is filtering by that key. */
  lemma {:induction false} KeepIsRemoveAt<T(!new)>(s: seq<T>, key: T -> Id, i: nat)
    requires i < |s| && DistinctKeys(s, key)
    ensures Keep(s, key, {key(s[i])}) == RemoveAt(s, i)
  {
    var out := {key(s[i])};
    if i == 0 {
      forall x | x in s[1..] ensures key(x) !in out {
        var j :| 0 <= j < |s[1..]| && s[1..][j] == x;
        assert s[j + 1] == x;
      }
      KeepAll(s[1..], key, out);
    } else {
      assert s[1..][i - 1] == s[i];
      KeepIsRemoveAt(s[1..], key, i - 1);
      assert [s[0]] + RemoveAt(s[1..], i - 1) == RemoveAt(s, i);
    }
  }

  /** The first element survives at the front when its key is kept. */
  lemma KeepFirst<T(!new)>(s: seq<T>, key: T -> Id, out: set<Id>)
    requires s != [] && key(s[0]) !in out
    ensures Keep(s, key, out) != [] && Keep(s, key, out)[0] == s[0]
  {
  }
}
