/** The parts of Go's `strings`, `sort` and `fmt` packages that the core relies
    on, stated over `string` (a sequence of Unicode code points). */
module GoStrings {

  /** strings.HasPrefix */
  predicate HasPrefix(s: string, prefix: string) {
    |prefix| <= |s| && s[..|prefix|] == prefix
  }

  /** strings.HasSuffix */
  predicate HasSuffix(s: string, suffix: string) {
    |suffix| <= |s| && s[|s| - |suffix|..] == suffix
  }

  /** strings.TrimPrefix: drops `prefix` once if `s` starts with it. */
  function TrimPrefix(s: string, prefix: string): (r: string)
    ensures HasPrefix(s, prefix) ==> prefix + r == s
    ensures !HasPrefix(s, prefix) ==> r == s
  {
    if HasPrefix(s, prefix) then
      assert s == s[..|prefix|] + s[|prefix|..];
      s[|prefix|..]
    else s
  }

  /** unicode.IsSpace, the predicate strings.TrimSpace trims by. */
  predicate IsSpace(c: char) {
    c == ' ' || c == '\t' || c == '\n' || c == '\r' || c == '\U{0B}' || c == '\U{0C}'
    || c == '\U{85}' || c == '\U{A0}' || c == '\U{1680}'
    || ('\U{2000}' <= c <= '\U{200A}')
    || c == '\U{2028}' || c == '\U{2029}' || c == '\U{202F}' || c == '\U{205F}' || c == '\U{3000}'
  }

  /** The number of white-space characters `s` starts with. */
  function LeadingSpaces(s: string): (n: nat)
    ensures n <= |s|
    ensures forall k :: 0 <= k < n ==> IsSpace(s[k])
    ensures n == |s| || !IsSpace(s[n])
  {
    if s != [] && IsSpace(s[0]) then 1 + LeadingSpaces(s[1..]) else 0
  }

  /** Removes the trailing white space. */
  function TrimRight(s: string): (r: string)
    ensures |r| <= |s| && r == s[..|r|]
    ensures r == [] || !IsSpace(r[|r| - 1])
    ensures forall k :: |r| <= k < |s| ==> IsSpace(s[k])
  {
    if s != [] && IsSpace(s[|s| - 1]) then TrimRight(s[..|s| - 1]) else s
  }

  /** strings.TrimSpace: drops the leading and the trailing white space and
      nothing else, so the result neither starts nor ends with white space. */
  function TrimSpace(s: string): (r: string)
    ensures LeadingSpaces(s) + |r| <= |s|
    ensures r == s[LeadingSpaces(s)..LeadingSpaces(s) + |r|]
    ensures forall k :: LeadingSpaces(s) + |r| <= k < |s| ==> IsSpace(s[k])
    ensures r == [] || (!IsSpace(r[0]) && !IsSpace(r[|r| - 1]))
  {
    var lo := LeadingSpaces(s);
    var r := TrimRight(s[lo..]);
    assert s[lo..lo + |r|] == r;
    r
  }

  /** strings.Split(s, "\n")[0]: everything before the first line feed. */
  function FirstLine(s: string): (r: string)
    ensures HasPrefix(s, r)
    ensures '\n' !in r
    ensures |r| == |s| || s[|r|] == '\n'
  {
    if s == [] || s[0] == '\n' then []
    else
      var rest := FirstLine(s[1..]);
      assert s[..1 + |rest|] == [s[0]] + rest;
      [s[0]] + rest
  }

  /** Go's string order (byte-wise on UTF-8, which agrees with code-point order). */
  predicate LessEq(a: string, b: string) {
    a == [] || (b != [] && (a[0] < b[0] || (a[0] == b[0] && LessEq(a[1..], b[1..]))))
  }

  lemma {:induction false} LessEqTotal(a: string, b: string)
    ensures LessEq(a, b) || LessEq(b, a)
  {
    if a != [] && b != [] && a[0] == b[0] {
      LessEqTotal(a[1..], b[1..]);
    }
  }

  lemma {:induction false} LessEqAntisymmetric(a: string, b: string)
    requires LessEq(a, b) && LessEq(b, a)
    ensures a == b
  {
    if a != [] {
      LessEqAntisymmetric(a[1..], b[1..]);
      assert a == [a[0]] + a[1..] && b == [b[0]] + b[1..];
    }
  }

  lemma {:induction false} LessEqTransitive(a: string, b: string, c: string)
    requires LessEq(a, b) && LessEq(b, c)
    ensures LessEq(a, c)
  {
    if a != [] && a[0] == b[0] && b[0] == c[0] {
      LessEqTransitive(a[1..], b[1..], c[1..]);
    }
  }

  predicate Sorted(s: seq<string>) {
    forall i :: 0 < i < |s| ==> LessEq(s[i - 1], s[i])
  }

  /** Inserts `x` into a sorted sequence, before the first element it does not exceed. */
  function Insert(x: string, s: seq<string>): (r: seq<string>)
    requires Sorted(s)
    ensures Sorted(r)
    ensures multiset(r) == multiset(s) + multiset{x}
    ensures r != [] && (r[0] == x || (s != [] && r[0] == s[0]))
  {
    if s == [] then [x]
    else if LessEq(x, s[0]) then [x] + s
    else
      LessEqTotal(x, s[0]);
      var t := Insert(x, s[1..]);
      assert s == [s[0]] + s[1..];
      [s[0]] + t
  }

  /** sort.Strings: ascending order, the same elements with the same multiplicities. */
  function SortStrings(s: seq<string>): (r: seq<string>)
    ensures Sorted(r)
    ensures multiset(r) == multiset(s)
    ensures |r| == |s|
  {
    if s == [] then []
    else
      assert s == [s[0]] + s[1..];
      Insert(s[0], SortStrings(s[1..]))
  }

  /** The first element of a sorted sequence is below every element. */
  lemma {:induction false} SortedFirstIsLeast(s: seq<string>, k: nat)
    requires Sorted(s) && k < |s|
    ensures LessEq(s[0], s[k])
  {
    if k == 0 {
      LessEqTotal(s[0], s[0]);
    } else {
      SortedFirstIsLeast(s, k - 1);
      LessEqTransitive(s[0], s[k - 1], s[k]);
    }
  }

  /** Two sorted sequences with the same elements start with the same one. */
  lemma SortedPermutationsShareHead(a: seq<string>, b: seq<string>)
    requires Sorted(a) && Sorted(b) && multiset(a) == multiset(b) && a != []
    ensures b != [] && a[0] == b[0]
  {
    assert a[0] in multiset(b);
    var j :| 0 <= j < |b| && b[j] == a[0];
    assert b[0] in multiset(a);
    var i :| 0 <= i < |a| && a[i] == b[0];
    SortedFirstIsLeast(a, i);
    SortedFirstIsLeast(b, j);
    LessEqAntisymmetric(a[0], b[0]);
  }

  lemma TailMultiset(a: seq<string>)
    requires a != []
    ensures multiset(a[1..]) == multiset(a) - multiset{a[0]}
  {
    assert a == [a[0]] + a[1..];
  }

  /** Two sorted sequences with the same elements are equal. */
  lemma {:induction false} SortedPermutationsAreEqual(a: seq<string>, b: seq<string>)
    requires Sorted(a) && Sorted(b) && multiset(a) == multiset(b)
    ensures a == b
    decreases |a|
  {
    if a == [] {
      assert |b| == |multiset(b)| == 0;
    } else {
      SortedPermutationsShareHead(a, b);
      TailMultiset(a);
      TailMultiset(b);
      SortedPermutationsAreEqual(a[1..], b[1..]);
      assert a == [a[0]] + a[1..] && b == [b[0]] + b[1..];
    }
  }

  /** sort.Strings depends only on the elements, not on their order. */
  lemma SortStringsIgnoresOrder(a: seq<string>, b: seq<string>)
    requires multiset(a) == multiset(b)
    ensures SortStrings(a) == SortStrings(b)
  {
    SortedPermutationsAreEqual(SortStrings(a), SortStrings(b));
  }

  function DigitChar(d: nat): (c: char)
    requires d < 10
    ensures '0' <= c <= '9'
    ensures DigitValue(c) == d
  {
    "0123456789"[d]
  }

  predicate IsDigit(c: char) {
    '0' <= c <= '9'
  }

  function DigitValue(c: char): nat
    requires IsDigit(c)
  {
    c as int - '0' as int
  }

  /** The number a string of decimal digits denotes, most significant first. */
  function DecimalValue(s: string): nat
    requires forall k :: 0 <= k < |s| ==> IsDigit(s[k])
  {
    if s == [] then 0 else 10 * DecimalValue(s[..|s| - 1]) + DigitValue(s[|s| - 1])
  }

  /** fmt's %d for a non-negative int: the shortest decimal digits that
      denote `n`. */
  function Itoa(n: nat): (r: string)
    ensures r != []
    ensures forall k :: 0 <= k < |r| ==> IsDigit(r[k])
    ensures |r| > 1 ==> r[0] != '0'
    ensures DecimalValue(r) == n
  {
    if n < 10 then [DigitChar(n)]
    else
      var prefix := Itoa(n / 10);
      var r := prefix + [DigitChar(n % 10)];
      assert r[..|r| - 1] == prefix;
      r
  }

  /** Elements separated by single spaces. */
  function JoinWithSpaces(s: seq<string>): string {
    if s == [] then []
    else if |s| == 1 then s[0]
    else s[0] + " " + JoinWithSpaces(s[1..])
  }

  /** The position of the first space of `t`, or `|t|` when there is none. */
  function SpaceIndex(t: string): (i: nat)
    ensures i <= |t|
    ensures forall k :: 0 <= k < i ==> t[k] != ' '
    ensures i == |t| || t[i] == ' '
  {
    if t == [] || t[0] == ' ' then 0 else 1 + SpaceIndex(t[1..])
  }

  /** The words of `t` between single spaces; the empty text has none. */
  function SplitOnSpaces(t: string): seq<string>
    decreases |t|
  {
    if t == [] then []
    else
      var i := SpaceIndex(t);
      if i == |t| then [t] else [t[..i]] + SplitOnSpaces(t[i + 1..])
  }

  /** Words a space-separated rendering keeps apart: non-empty and space-free. */
  predicate SpaceFreeWords(s: seq<string>) {
    forall i :: 0 <= i < |s| ==> s[i] != [] && ' ' !in s[i]
  }

  lemma {:induction false} SpaceIndexOfWord(w: string, rest: string)
    requires ' ' !in w
    ensures SpaceIndex(w) == |w|
    ensures SpaceIndex(w + " " + rest) == |w|
  {
    if w != [] {
      assert w[1..] + " " + rest == (w + " " + rest)[1..];
      assert w[0] in w;
      SpaceIndexOfWord(w[1..], rest);
    }
  }

  /** Splitting the joined words at their separators gives the words back. */
  lemma {:induction false} SplitJoinRoundTrip(s: seq<string>)
    requires SpaceFreeWords(s)
    ensures SplitOnSpaces(JoinWithSpaces(s)) == s
  {
    if |s| == 1 {
      SpaceIndexOfWord(s[0], "");
    } else if |s| > 1 {
      var rest := JoinWithSpaces(s[1..]);
      var t := s[0] + " " + rest;
      SpaceIndexOfWord(s[0], rest);
      assert t[..|s[0]|] == s[0];
      assert t[|s[0]| + 1..] == rest;
      assert SpaceFreeWords(s[1..]) by {
        forall i | 0 <= i < |s[1..]| ensures s[1..][i] != [] && ' ' !in s[1..][i] {
          assert s[1..][i] == s[i + 1];
        }
      }
      SplitJoinRoundTrip(s[1..]);
    }
  }

  /** fmt's %v for a []string: "[a b c]", the elements in order between single
      spaces. */
  function FormatStringSlice(s: seq<string>): (r: string)
    ensures |r| >= 2 && r[0] == '[' && r[|r| - 1] == ']'
    ensures r[1..|r| - 1] == JoinWithSpaces(s)
  {
    var r := "[" + JoinWithSpaces(s) + "]";
    assert r[1..|r| - 1] == JoinWithSpaces(s);
    r
  }

  /** The elements can be read back from the rendering when none of them is
      empty or holds a space. */
  lemma FormatStringSliceRoundTrip(s: seq<string>)
    requires SpaceFreeWords(s)
    ensures var r := FormatStringSlice(s); SplitOnSpaces(r[1..|r| - 1]) == s
  {
    SplitJoinRoundTrip(s);
  }
}
