/** The string operations the playlist code is written with: split and join on one
separator, substring search, whitespace trimming, prefix tests. */
module Text {

  datatype Option<+T> = None | Some(value: T)

  newtype Byte = b: int | 0 <= b < 256

  // ---------------------------------------------------------------- split and join

  function Split(s: string, c: char): (r: seq<string>)
    ensures |r| >= 1
  {
    if s == "" then [""]
    else if s[0] == c then [""] + Split(s[1..], c)
    else var r := Split(s[1..], c); [[s[0]] + r[0]] + r[1..]
  }

  function Join(parts: seq<string>, c: char): string {
    if parts == [] then ""
    else if |parts| == 1 then parts[0]
    else parts[0] + [c] + Join(parts[1..], c)
  }

  ghost predicate Clean(parts: seq<string>, c: char) {
    forall p :: p in parts ==> c !in p
  }

  lemma {:induction false} SplitClean(s: string, c: char)
    ensures Clean(Split(s, c), c)
  {
    if s != "" {
      SplitClean(s[1..], c);
      if s[0] != c {
        var r := Split(s[1..], c);
        assert r[0] in r;
      }
    }
  }

  lemma {:induction false} JoinSplit(s: string, c: char)
    ensures Join(Split(s, c), c) == s
  {
    if s != "" {
      JoinSplit(s[1..], c);
      var r := Split(s[1..], c);
      if s[0] == c {
        assert ([""] + r)[1..] == r;
        assert s == [c] + s[1..];
      } else {
        var q := [[s[0]] + r[0]] + r[1..];
        assert q[1..] == r[1..];
        assert s == [s[0]] + s[1..];
      }
    }
  }

  lemma {:induction false} SplitFirst(a: string, b: string, c: char)
    requires c !in a
    ensures Split(a + [c] + b, c) == [a] + Split(b, c)
  {
    var s := a + [c] + b;
    if a == "" {
      assert s == [c] + b;
      assert s[1..] == b;
    } else {
      SplitFirst(a[1..], b, c);
      assert s[1..] == a[1..] + [c] + b;
      assert s[0] == a[0] && a == [a[0]] + a[1..];
      assert a[0] in a;
    }
  }

  lemma {:induction false} SplitWhole(a: string, c: char)
    requires c !in a
    ensures Split(a, c) == [a]
  {
    if a != "" {
      SplitWhole(a[1..], c);
      assert a == [a[0]] + a[1..];
    }
  }

  lemma {:induction false} SplitJoin(parts: seq<string>, c: char)
    requires parts != [] && Clean(parts, c)
    ensures Split(Join(parts, c), c) == parts
  {
    assert parts[0] in parts;
    if |parts| == 1 {
      SplitWhole(parts[0], c);
    } else {
      SplitFirst(parts[0], Join(parts[1..], c), c);
      SplitJoin(parts[1..], c);
      assert parts == [parts[0]] + parts[1..];
    }
  }

  // ---------------------------------------------------------------- line by line

  function Map(f: string -> string, s: seq<string>): (r: seq<string>)
    ensures |r| == |s| && forall i :: 0 <= i < |r| ==> r[i] == f(s[i])
  {
    if s == [] then [] else [f(s[0])] + Map(f, s[1..])
  }

  /** The elements that do not satisfy `p`. */
  function Dropping<T>(p: T -> bool, s: seq<T>): seq<T> {
    if s == [] then []
    else if p(s[0]) then Dropping(p, s[1..])
    else [s[0]] + Dropping(p, s[1..])
  }

  lemma {:induction false} DroppingConcat<T>(p: T -> bool, a: seq<T>, b: seq<T>)
    ensures Dropping(p, a + b) == Dropping(p, a) + Dropping(p, b)
  {
    if a == [] {
      assert a + b == b;
    } else {
      DroppingConcat(p, a[1..], b);
      assert (a + b)[0] == a[0] && (a + b)[1..] == a[1..] + b;
    }
  }

  lemma {:induction false} DroppingMembers<T>(p: T -> bool, s: seq<T>)
    ensures forall l :: l in Dropping(p, s) <==> l in s && !p(l)
  {
    if s != [] {
      DroppingMembers(p, s[1..]);
      assert s == [s[0]] + s[1..];
    }
  }

  lemma {:induction false} DroppingNone<T>(p: T -> bool, s: seq<T>)
    requires forall l :: l in s ==> !p(l)
    ensures Dropping(p, s) == s
  {
    if s != [] {
      assert s[0] in s;
      assert forall l :: l in s[1..] ==> l in s;
      DroppingNone(p, s[1..]);
    }
  }

  lemma Regroup<T>(a: seq<T>, b: seq<T>, c: seq<T>)
    ensures (a + b) + c == a + (b + c)
  {
  }

  /** An element that `p` drops can be put in anywhere. */
  lemma DroppingInserted<T>(p: T -> bool, s: seq<T>, at: nat, x: T)
    requires at <= |s| && p(x) && forall l :: l in s ==> !p(l)
    ensures Dropping(p, s[..at] + [x] + s[at..]) == s
  {
    var head, tail := s[..at], s[at..];
    assert s == head + tail;
    DroppingNone(p, head);
    DroppingNone(p, tail);
    DroppingConcat(p, head + [x], tail);
    DroppingConcat(p, head, [x]);
    assert [x][1..] == [];
  }

  // ---------------------------------------------------------------- substrings

  predicate At(s: string, i: nat, p: string) {
    i + |p| <= |s| && s[i..i + |p|] == p
  }

  predicate Contains(s: string, p: string) {
    exists i | 0 <= i <= |s| :: At(s, i, p)
  }

  ghost predicate AnyContains(parts: seq<string>, p: string) {
    exists q :: q in parts && Contains(q, p)
  }

  lemma AtChar(s: string, i: nat, p: string, k: nat)
    requires At(s, i, p) && k < |p|
    ensures s[i + k] == p[k]
  {
    assert s[i..i + |p|][k] == s[i + k];
  }

  lemma ContainsSub(s: string, lo: nat, hi: nat, p: string)
    requires lo <= hi <= |s| && Contains(s[lo..hi], p)
    ensures Contains(s, p)
  {
    var i :| 0 <= i <= hi - lo && At(s[lo..hi], i, p);
    forall k | 0 <= k < |p| ensures s[lo + i + k] == p[k] {
      AtChar(s[lo..hi], i, p, k);
    }
    assert At(s, lo + i, p);
  }

  /** An occurrence avoiding the separator lies wholly on one side of it. */
  lemma ContainsAround(a: string, b: string, c: char, p: string)
    requires p != "" && c !in p
    ensures Contains(a + [c] + b, p) <==> Contains(a, p) || Contains(b, p)
  {
    var s := a + [c] + b;
    assert s[0..|a|] == a && s[|a| + 1..|s|] == b;
    if Contains(s, p) {
      var i :| 0 <= i <= |s| && At(s, i, p);
      if i + |p| <= |a| {
        assert a[i..i + |p|] == s[i..i + |p|];
        assert At(a, i, p);
      } else if i > |a| {
        var k := i - |a| - 1;
        assert b[k..k + |p|] == s[i..i + |p|];
        assert At(b, k, p);
      } else {
        AtChar(s, i, p, |a| - i);
        assert false;
      }
    }
    if Contains(a, p) { ContainsSub(s, 0, |a|, p); }
    if Contains(b, p) { ContainsSub(s, |a| + 1, |s|, p); }
  }

  lemma {:induction false} ContainsJoin(parts: seq<string>, c: char, p: string)
    requires p != "" && c !in p
    ensures Contains(Join(parts, c), p) <==> AnyContains(parts, p)
  {
    if parts == [] {
    } else if |parts| == 1 {
      assert parts[0] in parts;
    } else {
      var rest := parts[1..];
      ContainsJoin(rest, c, p);
      ContainsAround(parts[0], Join(rest, c), c, p);
      assert parts == [parts[0]] + rest;
      assert forall q :: q in parts <==> q == parts[0] || q in rest;
    }
  }

  lemma ContainsSplit(s: string, c: char, p: string)
    requires p != "" && c !in p
    ensures Contains(s, p) <==> AnyContains(Split(s, c), p)
  {
    JoinSplit(s, c);
    ContainsJoin(Split(s, c), c, p);
  }

  /** A pattern starting with `c` cannot occur where `c` does not. */
  lemma ContainsNeeds(s: string, p: string, c: char)
    requires p != "" && p[0] == c && c !in s
    ensures !Contains(s, p)
  {
    forall i | 0 <= i <= |s| ensures !At(s, i, p) {
      if At(s, i, p) { AtChar(s, i, p, 0); }
    }
  }

  /** `c` stands nowhere but at the front. */
  ghost predicate OnlyFirst(s: string, c: char) {
    forall i :: 0 < i < |s| ==> s[i] != c
  }

  lemma OnlyFirstConcat(a: string, b: string, c: char)
    requires a != "" && OnlyFirst(a, c) && c !in b
    ensures OnlyFirst(a + b, c)
  {
  }

  /** If `c` stands only at the front of `head` and `head` disagrees with the pattern,
      every occurrence in head + tail lies in the tail. */
  lemma ContainsAfter(head: string, tail: string, p: string, c: char, k: nat)
    requires k < |p| && k < |head| && head[k] != p[k]
    requires p[0] == c && OnlyFirst(head, c)
    ensures Contains(head + tail, p) ==> Contains(tail, p)
  {
    var s := head + tail;
    if Contains(s, p) {
      var i :| 0 <= i <= |s| && At(s, i, p);
      assert s[i..i + |p|][0] == s[i] == c;
      if i == 0 {
        assert false;
      } else if i < |head| {
        assert false;
      } else {
        assert tail[i - |head|..i - |head| + |p|] == s[i..i + |p|];
        assert At(tail, i - |head|, p);
      }
    }
  }

  function IndexOf(s: string, c: char): (i: int)
    ensures -1 <= i < |s|
    ensures i >= 0 ==> s[i] == c && c !in s[..i]
    ensures i < 0 ==> c !in s
  {
    if s == "" then -1
    else if s[0] == c then 0
    else
      var k := IndexOf(s[1..], c);
      if k < 0 then -1 else assert s[..k + 1] == [s[0]] + s[1..][..k]; k + 1
  }

  lemma {:induction false} IndexIs(s: string, c: char, i: nat)
    requires i < |s| && s[i] == c && c !in s[..i]
    ensures IndexOf(s, c) == i
  {
    if i > 0 {
      assert s[0] in s[..i];
      assert s[..i] == [s[0]] + s[1..][..i - 1];
      IndexIs(s[1..], c, i - 1);
    }
  }

  // ---------------------------------------------------------------- whitespace

  /** unicode.IsSpace. */
  predicate IsSpace(c: char) {
    || c == ' ' || '\t' <= c <= '\r'
    || c == '\U{85}' || c == '\U{A0}' || c == '\U{1680}' || '\U{2000}' <= c <= '\U{200A}'
    || c == '\U{2028}' || c == '\U{2029}' || c == '\U{202F}' || c == '\U{205F}' || c == '\U{3000}'
  }

  function TrimLeft(s: string): string {
    if s != "" && IsSpace(s[0]) then TrimLeft(s[1..]) else s
  }

  function TrimRight(s: string): string {
    if s != "" && IsSpace(s[|s| - 1]) then TrimRight(s[..|s| - 1]) else s
  }

  function Trim(s: string): string {
    TrimRight(TrimLeft(s))
  }

  lemma {:induction false} TrimRightKeeps(s: string, n: nat)
    requires 0 < n <= |s| && !IsSpace(s[n - 1])
    ensures n <= |TrimRight(s)| <= |s| && TrimRight(s) == s[..|TrimRight(s)|]
  {
    if IsSpace(s[|s| - 1]) {
      var t := s[..|s| - 1];
      TrimRightKeeps(t, n);
      assert t[..|TrimRight(t)|] == s[..|TrimRight(t)|];
    }
  }

  /** Trimming keeps a prefix that neither starts nor ends in space. */
  lemma TrimKeepsPrefix(s: string, p: string)
    requires p != "" && p <= s && !IsSpace(p[0]) && !IsSpace(p[|p| - 1])
    ensures p <= Trim(s)
  {
    TrimRightKeeps(s, |p|);
  }

  lemma {:induction false} TrimRightPart(s: string)
    ensures exists i :: 0 <= i <= |s| && TrimRight(s) == s[..i]
  {
    if s != "" && IsSpace(s[|s| - 1]) {
      var t := s[..|s| - 1];
      TrimRightPart(t);
      var i :| 0 <= i <= |t| && TrimRight(t) == t[..i];
      assert t[..i] == s[..i];
    } else {
      assert s == s[..|s|];
    }
  }

  lemma TrimIdentity(s: string)
    requires s != "" && !IsSpace(s[0]) && !IsSpace(s[|s| - 1])
    ensures Trim(s) == s
  {
  }

  // ---------------------------------------------------------------- numbers

  /** strconv.ParseInt(s, 10, 64): an optional sign, digits, within 64 bits. */
  function ParseInt64(s: string): Option<int> {
    var neg := s != "" && s[0] == '-';
    var digits := if s != "" && (s[0] == '-' || s[0] == '+') then s[1..] else s;
    if digits == "" || exists c | c in digits :: !('0' <= c <= '9') then None
    else
      var v := if neg then -Digits(digits) else Digits(digits);
      if -0x8000_0000_0000_0000 <= v <= 0x7FFF_FFFF_FFFF_FFFF then Some(v) else None
  }

  function Digits(s: string): int {
    if s == "" then 0 else 10 * Digits(s[..|s| - 1]) + (s[|s| - 1] as int - '0' as int)
  }

  function NatDigits(n: nat): string {
    if n < 10 then [(n + '0' as int) as char] else NatDigits(n / 10) + [(n % 10 + '0' as int) as char]
  }

  /** Sprintf("%d", n). */
  function Decimal(n: int): string {
    if n < 0 then "-" + NatDigits(-n) else NatDigits(n)
  }

  lemma {:induction false} NatDigitsAreDigits(n: nat)
    ensures forall c :: c in NatDigits(n) ==> '0' <= c <= '9'
  {
    if n >= 10 { NatDigitsAreDigits(n / 10); }
  }

  lemma DecimalIsPlain(n: int)
    ensures forall c :: c in Decimal(n) ==> c == '-' || '0' <= c <= '9'
  {
    NatDigitsAreDigits(if n < 0 then -n else n);
  }
}
