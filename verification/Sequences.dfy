/** Sequences: the first element with a property, and multisets of elements one at a time. */
module Sequences {
  /** The position of the first such element; the length when there is none. */
  function FirstWith<T>(s: seq<T>, p: T -> bool): (i: nat)
    ensures i <= |s|
    ensures i < |s| ==> p(s[i])
    ensures forall j :: 0 <= j < i ==> !p(s[j])
  {
    if s == [] || p(s[0]) then 0 else 1 + FirstWith(s[1..], p)
  }

  lemma RemoveAt<T>(s: seq<T>, i: nat)
    requires i < |s|
    ensures multiset(s[..i] + s[i + 1..]) + multiset{s[i]} == multiset(s)
    ensures multiset(s[..i] + s[i + 1..]) == multiset(s) - multiset{s[i]}
  {
    assert s == s[..i] + ([s[i]] + s[i + 1..]);
    assert multiset(s) == multiset(s[..i]) + (multiset{s[i]} + multiset(s[i + 1..]));
  }

  lemma RemoveLast<T>(s: seq<T>)
    requires s != []
    ensures multiset(s[..|s| - 1]) == multiset(s) - multiset{s[|s| - 1]}
  {
    RemoveAt(s, |s| - 1);
    assert s[..|s| - 1] + s[|s| - 1 + 1..] == s[..|s| - 1];
  }

  lemma RemoveFirst<T>(s: seq<T>)
    requires s != []
    ensures multiset(s[1..]) == multiset(s) - multiset{s[0]} && s[0] in multiset(s)
  {
    RemoveAt(s, 0);
    assert s[..0] + s[1..] == s[1..];
  }

  /** One element moves from one sequence to another. */
  lemma MoveOver<T>(from: seq<T>, to: seq<T>, i: nat)
    requires i < |from|
    ensures multiset(from[..i] + from[i + 1..] + (to + [from[i]])) == multiset(from + to)
  {
    RemoveAt(from, i);
    assert multiset(to + [from[i]]) == multiset(to) + multiset{from[i]};
  }

  lemma AppendCovers<T>(a: seq<T>, b: seq<T>, e: T)
    requires multiset(a) <= multiset(b)
    ensures multiset(a) <= multiset(b + [e]) && multiset(a + [e]) <= multiset(b + [e])
  {
    assert multiset(a + [e]) == multiset(a) + multiset{e};
    assert multiset(b + [e]) == multiset(b) + multiset{e};
  }

  lemma SameElements<T>(a: seq<T>, b: seq<T>)
    requires multiset(a) == multiset(b)
    ensures forall e :: e in a <==> e in b
  {
    forall e ensures e in a <==> e in b {
      assert e in a <==> e in multiset(a);
      assert e in b <==> e in multiset(b);
    }
  }

  /** Two arrangements of the same elements, without the last of the first. */
  lemma WithoutLast<T>(a: seq<T>, b: seq<T>) returns (i: nat)
    requires a != [] && multiset(a) == multiset(b)
    ensures i < |b| && b[i] == a[|a| - 1] && multiset(a[..|a| - 1]) == multiset(b[..i] + b[i + 1..])
  {
    var e := a[|a| - 1];
    assert e in a;
    assert e in multiset(b);
    i :| 0 <= i < |b| && b[i] == e;
    RemoveLast(a);
    RemoveAt(b, i);
  }
}
