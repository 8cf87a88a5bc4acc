/** Insertion sort by any total order, and the order of identifiers. */
module Sorting {

  predicate StrLe(a: string, b: string) {
    a == "" || (b != "" && (a[0] < b[0] || (a[0] == b[0] && StrLe(a[1..], b[1..]))))
  }

  lemma {:induction false} StrLeTotal(a: string, b: string)
    ensures StrLe(a, b) || StrLe(b, a)
  {
    if a != "" && b != "" && a[0] == b[0] { StrLeTotal(a[1..], b[1..]); }
  }

  lemma {:induction false} StrLeTransitive(a: string, b: string, c: string)
    requires StrLe(a, b) && StrLe(b, c)
    ensures StrLe(a, c)
  {
    if a != "" && a[0] == b[0] && b[0] == c[0] { StrLeTransitive(a[1..], b[1..], c[1..]); }
  }

  ghost predicate TotalOrder<T(!new)>(le: (T, T) -> bool) {
    && (forall a, b :: le(a, b) || le(b, a))
    && (forall a, b, c :: le(a, b) && le(b, c) ==> le(a, c))
  }

  ghost predicate Ordered<T>(le: (T, T) -> bool, s: seq<T>) {
    forall i, j :: 0 <= i < j < |s| ==> le(s[i], s[j])
  }

  method Insert<T(!new)>(le: (T, T) -> bool, s: seq<T>, p: T) returns (r: seq<T>)
    requires TotalOrder(le) && Ordered(le, s)
    ensures Ordered(le, r) && multiset(r) == multiset(s) + multiset{p}
  {
    var i := |s|;
    while i > 0 && !le(s[i - 1], p)
      invariant 0 <= i <= |s|
      invariant forall j :: i <= j < |s| ==> le(p, s[j])
    {
      i := i - 1;
    }
    r := s[..i] + [p] + s[i..];
    InsertedOrdered(le, s, p, i);
    InsertedContents(s, p, i);
  }

  lemma InsertedOrdered<T(!new)>(le: (T, T) -> bool, s: seq<T>, p: T, i: nat)
    requires TotalOrder(le) && Ordered(le, s) && i <= |s|
    requires i > 0 ==> le(s[i - 1], p)
    requires forall j :: i <= j < |s| ==> le(p, s[j])
    ensures Ordered(le, s[..i] + [p] + s[i..])
  {
    forall a | 0 <= a < i ensures le(s[a], p) {
      if a < i - 1 { assert le(s[a], s[i - 1]); }
    }
  }

  lemma InsertedContents<T>(s: seq<T>, p: T, i: nat)
    requires i <= |s|
    ensures multiset(s[..i] + [p] + s[i..]) == multiset(s) + multiset{p}
  {
    assert s == s[..i] + s[i..];
  }

  method Sort<T(!new)>(le: (T, T) -> bool, s: seq<T>) returns (r: seq<T>)
    requires TotalOrder(le)
    ensures Ordered(le, r) && multiset(r) == multiset(s)
  {
    r := [];
    for i := 0 to |s|
      invariant Ordered(le, r) && multiset(r) == multiset(s[..i])
    {
      assert s[..i + 1] == s[..i] + [s[i]];
      r := Insert(le, r, s[i]);
    }
    assert s[..|s|] == s;
  }
}
