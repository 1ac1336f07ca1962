/** Vocabulary shared by the demand-generation core and the orchestrator:
    identifiers, lane classification and a few sequence helpers. */
module Common {

  datatype Option<+T> = None | Some(value: T)

  type RoadId = nat
  type LaneId = nat
  type BuildingId = nat
  type IntersectionId = nat
  type TurnId = nat
  type CarId = nat

  /** The four lane classifications the map distinguishes. */
  datatype LaneType = Driving | Parking | Sidewalk | Biking

  /** No element occurs twice (stated on multiplicities, so it survives permutations). */
  ghost predicate NoDup<T(!new)>(s: seq<T>) {
    forall x :: multiset(s)[x] <= 1
  }

  function Last<T>(s: seq<T>): T
    requires |s| > 0
  {
    s[|s| - 1]
  }

  function DropLast<T>(s: seq<T>): seq<T>
    requires |s| > 0
  {
    s[..|s| - 1]
  }

  /** Sum of a sequence, peeled from the end so that appending is easy to reason about. */
  function Sum(s: seq<nat>): nat {
    if s == [] then 0 else Sum(DropLast(s)) + Last(s)
  }

  function Min(a: nat, b: nat): nat {
    if a <= b then a else b
  }

  /** Being a prefix is transitive. */
  lemma PrefixTrans<T>(a: seq<T>, b: seq<T>, c: seq<T>)
    requires |a| <= |b| <= |c| && b[..|a|] == a && c[..|b|] == b
    ensures c[..|a|] == a
  {
    assert c[..|a|] == c[..|b|][..|a|];
  }

  /** Concatenation is associative. */
  lemma AppendAssoc<T>(a: seq<T>, b: seq<T>, c: seq<T>)
    ensures a + (b + c) == a + b + c
  {
  }

  lemma TakeOneMore<T>(s: seq<T>, i: nat)
    requires i < |s|
    ensures s[..i + 1] == s[..i] + [s[i]]
  {
  }

  lemma NoDupDropLast<T(!new)>(s: seq<T>)
    requires |s| > 0 && NoDup(s)
    ensures NoDup(DropLast(s)) && Last(s) !in DropLast(s)
  {
    var d := DropLast(s);
    assert s == d + [Last(s)];
    forall x
      ensures multiset(d)[x] <= 1
    {
      assert multiset(s)[x] == multiset(d)[x] + multiset{Last(s)}[x];
    }
    assert multiset(s)[Last(s)] == multiset(d)[Last(s)] + 1;
    assert multiset(d)[Last(s)] == 0;
  }

  /** In a list without duplicates, an element does not occur before its own position. */
  lemma NoDupNotBefore<T(!new)>(s: seq<T>, i: nat)
    requires i < |s| && NoDup(s)
    ensures s[i] !in s[..i]
  {
    assert s == s[..i] + [s[i]] + s[i + 1..];
    assert multiset(s)[s[i]] == multiset(s[..i])[s[i]] + 1 + multiset(s[i + 1..])[s[i]];
    assert multiset(s[..i])[s[i]] == 0;
  }

  lemma NoDupAppend<T(!new)>(s: seq<T>, x: T)
    requires NoDup(s) && x !in s
    ensures NoDup(s + [x])
  {
    forall y
      ensures multiset(s + [x])[y] <= 1
    {
      assert multiset(s + [x])[y] == multiset(s)[y] + multiset{x}[y];
    }
  }
}
