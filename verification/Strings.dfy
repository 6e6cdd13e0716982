/** The parts of Go's strings and strconv packages that the components use. */
module Strings {
  import opened Wrappers

  // ----- strings.Index, strings.Split, strings.Join -----

  predicate FoundAt(s: string, sub: string, i: int) {
    0 <= i && i + |sub| <= |s| && s[i..i + |sub|] == sub
  }

  lemma FoundStarts(s: string, sub: string, i: int)
    requires sub != ""
    ensures FoundAt(s, sub, i) ==> s[i] == sub[0]
  {
    if FoundAt(s, sub, i) {
      assert s[i] == s[i..i + |sub|][0];
    }
  }

  function IndexFrom(s: string, sub: string, i: nat): (r: Option<nat>)
    requires i <= |s|
    ensures r.Some? ==> i <= r.value && FoundAt(s, sub, r.value) && forall j :: i <= j < r.value ==> !FoundAt(s, sub, j)
    ensures r.None? ==> forall j :: i <= j ==> !FoundAt(s, sub, j)
    decreases |s| - i
  {
    if FoundAt(s, sub, i) then Some(i)
    else if i == |s| then None
    else IndexFrom(s, sub, i + 1)
  }

  /** First occurrence of `sub` in `s`. */
  function Index(s: string, sub: string): (r: Option<nat>)
    ensures r.Some? ==> FoundAt(s, sub, r.value) && forall j :: 0 <= j < r.value ==> !FoundAt(s, sub, j)
    ensures r.None? ==> forall j :: !FoundAt(s, sub, j)
  {
    IndexFrom(s, sub, 0)
  }

  function Split(s: string, sep: string): (r: seq<string>)
    requires sep != ""
    ensures r != []
    decreases |s|
  {
    match Index(s, sep)
    case None => [s]
    case Some(i) => [s[..i]] + Split(s[i + |sep|..], sep)
  }

  function Join(parts: seq<string>, sep: string): string {
    if parts == [] then "" else if |parts| == 1 then parts[0] else parts[0] + sep + Join(parts[1..], sep)
  }

  lemma {:induction false} JoinSplit(s: string, sep: string)
    requires sep != ""
    ensures Join(Split(s, sep), sep) == s
    decreases |s|
  {
    match Index(s, sep)
    case None =>
    case Some(i) =>
      var rest := s[i + |sep|..];
      JoinSplit(rest, sep);
      assert Split(s, sep)[1..] == Split(rest, sep);
      assert s == s[..i] + s[i..i + |sep|] + rest;
  }

  /** A first piece in which the separator's first character does not occur. */
  lemma SplitHead(a: string, sep: string, rest: string)
    requires sep != "" && sep[0] !in a
    ensures Split(a + sep + rest, sep) == [a] + Split(rest, sep)
  {
    var s := a + sep + rest;
    assert FoundAt(s, sep, |a|);
    assert Index(s, sep) == Some(|a|);
    assert s[..|a|] == a && s[|a| + |sep|..] == rest;
  }

  lemma SplitLast(a: string, sep: string)
    requires sep != "" && sep[0] !in a
    ensures Split(a, sep) == [a]
  {
  }

  /** Splitting undoes joining when no piece holds the separator's first character and the last
      piece does not hold the separator. */
  lemma {:induction false} SplitJoin(parts: seq<string>, sep: string)
    requires sep != "" && parts != []
    requires forall k :: 0 <= k < |parts| - 1 ==> sep[0] !in parts[k]
    requires Index(parts[|parts| - 1], sep).None?
    ensures Split(Join(parts, sep), sep) == parts
  {
    hide Index;
    if |parts| > 1 {
      var rest := parts[1..];
      SplitJoin(rest, sep);
      SplitHead(parts[0], sep, Join(rest, sep));
    }
  }

  function Count(s: string, c: char): nat {
    if s == "" then 0 else (if s[0] == c then 1 else 0) + Count(s[1..], c)
  }

  lemma {:induction false} CountConcat(a: string, b: string, c: char)
    ensures Count(a + b, c) == Count(a, c) + Count(b, c)
  {
    if a == "" {
      assert a + b == b;
    } else {
      CountConcat(a[1..], b, c);
      assert (a + b)[1..] == a[1..] + b;
    }
  }

  lemma {:induction false} CountZero(s: string, c: char)
    ensures Count(s, c) == 0 <==> c !in s
  {
    if s != "" {
      CountZero(s[1..], c);
      assert s == [s[0]] + s[1..];
    }
  }

  /** A single-character separator cuts once per occurrence. */
  lemma {:induction false} SplitLength(s: string, c: char)
    ensures |Split(s, [c])| == Count(s, c) + 1
    decreases |s|
  {
    match Index(s, [c])
    case None =>
      CountZero(s, c);
      if c in s {
        var i :| 0 <= i < |s| && s[i] == c;
        assert FoundAt(s, [c], i);
      }
    case Some(i) =>
      var head, rest := s[..i], s[i + 1..];
      SplitLength(rest, c);
      if c in head {
        var j :| 0 <= j < |head| && head[j] == c;
        assert FoundAt(s, [c], j);
      }
      CountZero(head, c);
      assert s == head + [c] + rest;
      CountConcat(head + [c], rest, c);
      CountConcat(head, [c], c);
  }

  // ----- strconv.Itoa, strconv.ParseInt -----

  predicate IsDigit(c: char) { '0' <= c <= '9' }

  function DigitValue(c: char): int { c as int - '0' as int }

  function DigitChar(d: int): (c: char)
    requires 0 <= d < 10
    ensures IsDigit(c) && DigitValue(c) == d
  {
    ('0' as int + d) as char
  }

  predicate AllDigits(s: string) {
    forall i :: 0 <= i < |s| ==> IsDigit(s[i])
  }

  function NatToString(n: nat): (s: string)
    ensures s != "" && AllDigits(s)
  {
    if n < 10 then [DigitChar(n)] else NatToString(n / 10) + [DigitChar(n % 10)]
  }

  function Itoa(n: int): string {
    if n < 0 then "-" + NatToString(-n) else NatToString(n)
  }

  function NatValue(s: string): nat
    requires AllDigits(s)
  {
    if s == "" then 0 else 10 * NatValue(s[..|s| - 1]) + DigitValue(s[|s| - 1])
  }

  /** strconv.ParseInt(s, 10, bits); None is its error. */
  function ParseInt(s: string, bits: nat): Option<int>
    requires bits == 32 || bits == 64
  {
    var limit := if bits == 32 then 0x8000_0000 else 0x8000_0000_0000_0000;
    var negative := s != "" && s[0] == '-';
    var digits := if s != "" && (s[0] == '-' || s[0] == '+') then s[1..] else s;
    if digits == "" || !AllDigits(digits) then None
    else
      var n: int := NatValue(digits);
      if negative then (if n > limit then None else Some(-n))
      else (if n >= limit then None else Some(n))
  }

  lemma {:induction false} NatRoundTrip(n: nat)
    ensures NatValue(NatToString(n)) == n
  {
    if n >= 10 {
      NatRoundTrip(n / 10);
      var s := NatToString(n);
      assert s[..|s| - 1] == NatToString(n / 10);
    }
  }

  predicate FitsBits(n: int, bits: nat)
    requires bits == 32 || bits == 64
  {
    if bits == 32 then -0x8000_0000 <= n < 0x8000_0000
    else -0x8000_0000_0000_0000 <= n < 0x8000_0000_0000_0000
  }

  /** Printing and parsing agree exactly on the numbers that fit. */
  lemma ParseItoa(n: int, bits: nat)
    requires bits == 32 || bits == 64
    ensures ParseInt(Itoa(n), bits) == if FitsBits(n, bits) then Some(n) else None
  {
    NatRoundTrip(if n < 0 then -n else n);
    var s := Itoa(n);
    if n < 0 {
      assert s[1..] == NatToString(-n);
    } else {
      assert IsDigit(s[0]);
    }
  }

  lemma ItoaChars(n: int)
    ensures Itoa(n) != ""
    ensures forall c :: c in Itoa(n) ==> IsDigit(c) || c == '-'
  {
  }
}
