/** Stock datatypes and string helpers shared by every module. */
module Prelude {
  datatype Option<+T> = None | Some(value: T)

  /** Value of `m` at `k`, if any. */
  function Lookup<K, V>(m: map<K, V>, k: K): (r: Option<V>) {
    if k in m then Some(m[k]) else None
  }

  /** Two maps with the same lookups are the same map. */
  lemma SameLookups<K, V>(a: map<K, V>, b: map<K, V>)
    requires forall k :: Lookup(a, k) == Lookup(b, k)
    ensures a == b
  {
    assert forall k :: k in a <==> Lookup(a, k).Some?;
    assert forall k :: k in b <==> Lookup(b, k).Some?;
    forall k | k in a
      ensures k in b && a[k] == b[k]
    {
      assert Lookup(a, k) == Lookup(b, k);
    }
  }

  lemma FirstIsMember<T>(s: seq<T>)
    ensures s == [] || s[0] in s
  {
  }

  /** Time since `at`, zero if `at` lies in the future. */
  function Elapsed(now: nat, at: nat): (r: nat) {
    if now >= at then now - at else 0
  }

  // ---------------------------------------------------------------- trimming

  /** The characters with the Unicode property White_Space. */
  predicate IsSpace(c: char) {
    || '\U{0009}' <= c <= '\U{000D}' || c == ' ' || c == '\U{0085}' || c == '\U{00A0}' || c == '\U{1680}'
    || '\U{2000}' <= c <= '\U{200A}' || c == '\U{2028}' || c == '\U{2029}' || c == '\U{202F}' || c == '\U{205F}'
    || c == '\U{3000}'
  }

  function TrimStart(s: string): (r: string)
    ensures r != [] ==> !IsSpace(r[0])
  {
    if s != [] && IsSpace(s[0]) then TrimStart(s[1..]) else s
  }

  function TrimEnd(s: string): (r: string)
    ensures r <= s
    ensures r != [] ==> !IsSpace(r[|r| - 1])
  {
    if s != [] && IsSpace(s[|s| - 1]) then TrimEnd(s[..|s| - 1]) else s
  }

  function Trim(s: string): (r: string)
    ensures r != [] ==> !IsSpace(r[0]) && !IsSpace(r[|r| - 1])
  {
    TrimEnd(TrimStart(s))
  }

  /** Trimming drops white space at both ends and nothing else. */
  lemma TrimExact(s: string) returns (i: nat, j: nat)
    ensures i <= j <= |s| && Trim(s) == s[i..j]
    ensures (forall c :: c in s[..i] ==> IsSpace(c)) && forall c :: c in s[j..] ==> IsSpace(c)
  {
    i := TrimStartExact(s);
    var rest := TrimStart(s);
    var n := TrimEndExact(rest);
    j := i + n;
    assert s[i..][..n] == s[i..j] && s[i..][n..] == s[j..];
  }

  lemma {:induction false} TrimStartExact(s: string) returns (i: nat)
    ensures i <= |s| && TrimStart(s) == s[i..] && forall c :: c in s[..i] ==> IsSpace(c)
  {
    i := 0;
    if s != [] && IsSpace(s[0]) {
      i := TrimStartExact(s[1..]);
      assert s[1..][i..] == s[i + 1..] && s[..i + 1] == [s[0]] + s[1..][..i];
      i := i + 1;
    }
  }

  lemma {:induction false} TrimEndExact(s: string) returns (n: nat)
    ensures n <= |s| && TrimEnd(s) == s[..n] && forall c :: c in s[n..] ==> IsSpace(c)
  {
    n := |s|;
    if s != [] && IsSpace(s[|s| - 1]) {
      var front := s[..|s| - 1];
      n := TrimEndExact(front);
      assert front[..n] == s[..n] && s[n..] == front[n..] + [s[|s| - 1]];
    }
  }

  /** Nothing is left of a text exactly if it is all white space. */
  lemma TrimsToNothing(s: string)
    ensures Trim(s) == "" <==> forall c :: c in s ==> IsSpace(c)
  {
    var i, j := TrimExact(s);
    assert s == s[..i] + s[i..j] + s[j..];
    if Trim(s) != "" {
      assert s[i] in s && s[i] == Trim(s)[0];
    }
  }

  /** A text that neither starts nor ends with white space is left alone. */
  lemma TrimIdempotent(s: string)
    ensures Trim(Trim(s)) == Trim(s)
  {
  }

  // ---------------------------------------------------------------- string order

  /** Lexicographic order by character. */
  predicate StringLess(a: string, b: string) {
    b != [] && (a == [] || a[0] < b[0] || (a[0] == b[0] && StringLess(a[1..], b[1..])))
  }

  /** A proper prefix comes first; otherwise the first different character decides. */
  lemma {:induction false} StringLessExact(a: string, b: string)
    ensures StringLess(a, b)
            <==> exists n :: 0 <= n <= |a| && n < |b| && a[..n] == b[..n] && (n == |a| || a[n] < b[n])
  {
    if a != [] && b != [] && a[0] == b[0] {
      var x, y := a[1..], b[1..];
      StringLessExact(x, y);
      assert a == [a[0]] + x && b == [b[0]] + y;
      if StringLess(x, y) {
        var n :| 0 <= n <= |x| && n < |y| && x[..n] == y[..n] && (n == |x| || x[n] < y[n]);
        assert a[..n + 1] == [a[0]] + x[..n] && b[..n + 1] == [b[0]] + y[..n];
      }
      if n :| 0 <= n <= |a| && n < |b| && a[..n] == b[..n] && (n == |a| || a[n] < b[n]) {
        assert n > 0;
        assert x[..n - 1] == a[..n][1..] && y[..n - 1] == b[..n][1..];
      }
    } else if StringLess(a, b) {
      assert a[..0] == b[..0];
    } else if n :| 0 <= n <= |a| && n < |b| && a[..n] == b[..n] && (n == |a| || a[n] < b[n]) {
      assert n > 0 ==> a[..n][0] == b[..n][0];
    }
  }

  lemma {:induction false} StringLessTotal(a: string, b: string)
    ensures a == b || StringLess(a, b) || StringLess(b, a)
    ensures !(StringLess(a, b) && StringLess(b, a)) && !StringLess(a, a)
  {
    if a != [] && b != [] && a[0] == b[0] {
      StringLessTotal(a[1..], b[1..]);
      assert a == [a[0]] + a[1..] && b == [b[0]] + b[1..];
    }
    if a != [] {
      StringLessTotal(a[1..], a[1..]);
    }
  }

  lemma {:induction false} StringLessTransitive(a: string, b: string, c: string)
    requires StringLess(a, b) && StringLess(b, c)
    ensures StringLess(a, c)
  {
    if a != [] && a[0] == b[0] && b[0] == c[0] {
      StringLessTransitive(a[1..], b[1..], c[1..]);
    }
  }
}
