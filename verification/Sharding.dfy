/** How disk work is spread over the io workers (graph/g/cfg.go, graph/rrdtool/utils.go). */
module Sharding {
  import opened Wrappers
  import opened GoInts

  // ----- The check of the configuration -----

  /** The bitwise "and" of two non-negative numbers. */
  function BitAnd(x: nat, y: nat): nat {
    if x == 0 || y == 0 then 0 else (x % 2) * (y % 2) + 2 * BitAnd(x / 2, y / 2)
  }

  /** A worker count that ParseConfig does not refuse. */
  predicate AcceptsWorkerNum(n: nat) {
    !(n == 0 || BitAnd(n, n - 1) != 0)
  }

  function Pow2(a: nat): nat { if a == 0 then 1 else 2 * Pow2(a - 1) }

  lemma {:induction false} AndSelf(x: nat)
    ensures BitAnd(x, x) == x
  {
    if x > 0 {
      AndSelf(x / 2);
    }
  }

  lemma {:induction false} HalvesTo(n: nat) returns (a: nat)
    requires n > 0 && BitAnd(n, n - 1) == 0
    ensures n == Pow2(a)
  {
    if n == 1 {
      a := 0;
    } else if n % 2 == 0 {
      assert (n - 1) / 2 == n / 2 - 1 && n % 2 * ((n - 1) % 2) == 0;
      var b := HalvesTo(n / 2);
      a := b + 1;
    } else {
      assert (n - 1) / 2 == n / 2 && n % 2 * ((n - 1) % 2) == 0;
      AndSelf(n / 2);
      assert false;
    }
  }

  lemma {:induction false} PowersPass(a: nat)
    ensures Pow2(a) > 0 && BitAnd(Pow2(a), Pow2(a) - 1) == 0
  {
    if a > 0 {
      PowersPass(a - 1);
      var n := Pow2(a);
      assert n % 2 == 0 && n / 2 == Pow2(a - 1) && (n - 1) / 2 == n / 2 - 1;
      assert n % 2 * ((n - 1) % 2) == 0;
    }
  }

  /** The bit trick accepts exactly the powers of two. */
  lemma AcceptsPowersOfTwo(n: nat)
    ensures AcceptsWorkerNum(n) <==> exists a: nat :: n == Pow2(a)
  {
    if AcceptsWorkerNum(n) {
      var a := HalvesTo(n);
    }
    if a: nat :| n == Pow2(a) {
      PowersPass(a);
    }
  }

  // ----- The worker of a checksum -----

  function Pow16(k: nat): nat { if k == 0 then 1 else 16 * Pow16(k - 1) }

  /** len(strconv.FormatInt(n, 16)). */
  function HexLen(n: nat): (k: nat)
    ensures k >= 1
  {
    if n < 16 then 1 else HexLen(n / 16) + 1
  }

  function HexDigit(c: char): Option<int> {
    if '0' <= c <= '9' then Some(c as int - '0' as int)
    else if 'a' <= c <= 'f' then Some(c as int - 'a' as int + 10)
    else if 'A' <= c <= 'F' then Some(c as int - 'A' as int + 10)
    else None
  }

  predicate AllHex(s: string) {
    forall i :: 0 <= i < |s| ==> HexDigit(s[i]).Some?
  }

  function HexValue(s: string): int
    requires AllHex(s)
  {
    if s == "" then 0 else 16 * HexValue(s[..|s| - 1]) + HexDigit(s[|s| - 1]).value
  }

  const INT64_LIMIT := 0x8000_0000_0000_0000

  /** strconv.ParseInt(s, 16, 64); None is its error. */
  function ParseHex(s: string): Option<int> {
    var digits := if s != "" && (s[0] == '-' || s[0] == '+') then s[1..] else s;
    if digits == "" || !AllHex(digits) then None
    else
      var m := HexValue(digits);
      if s[0] == '-' then (if m > INT64_LIMIT then None else Some(-m))
      else (if m >= INT64_LIMIT then None else Some(m))
  }

  function GetIndex(md5: string, batchNum: nat, firstBytesSize: nat): int {
    if batchNum <= 1 || |md5| < firstBytesSize || firstBytesSize == 0 then 0
    else
      match ParseHex(md5[0..firstBytesSize])
      case None => 0
      case Some(m) => GoMod(m, batchNum)
  }

  /** A checksum never leaves the range of the workers. */
  lemma IndexInRange(md5: string, n: nat)
    requires AllHex(md5) && n > 1
    ensures 0 <= GetIndex(md5, n, HexLen(n)) < n
  {
    if |md5| >= HexLen(n) {
      var p := md5[0..HexLen(n)];
      assert AllHex(p);
      HexNonNegative(p);
      assert p != "" ==> HexDigit(p[0]).Some?;
    }
  }

  lemma {:induction false} HexNonNegative(s: string)
    requires AllHex(s)
    ensures HexValue(s) >= 0
  {
    if s != "" {
      HexNonNegative(s[..|s| - 1]);
    }
  }

  // ----- Counting prefixes -----

  function HexChar(d: int): (c: char)
    requires 0 <= d < 16
    ensures HexDigit(c) == Some(d) && c != '-' && c != '+'
  {
    if d < 10 then ('0' as int + d) as char else ('a' as int + d - 10) as char
  }

  /** The hex prefix of `k` digits with value `m`. */
  function Prefix(m: nat, k: nat): (s: string)
    ensures |s| == k && AllHex(s) && forall i :: 0 <= i < k ==> s[i] != '-' && s[i] != '+'
  {
    if k == 0 then "" else Prefix(m / 16, k - 1) + [HexChar(m % 16)]
  }

  /** Prefixes of `k` digits and numbers below 16^k are the same thing. */
  lemma {:induction false} PrefixValue(m: nat, k: nat)
    requires m < Pow16(k)
    ensures HexValue(Prefix(m, k)) == m
  {
    if k > 0 {
      PrefixValue(m / 16, k - 1);
      assert Prefix(m, k)[..k - 1] == Prefix(m / 16, k - 1);
    }
  }

  lemma HexCharBack(c: char)
    requires HexDigit(c).Some? && !('A' <= c <= 'F')
    ensures 0 <= HexDigit(c).value < 16 && HexChar(HexDigit(c).value) == c
  {
  }

  lemma {:induction false} EveryPrefix(s: string)
    requires AllHex(s) && forall i :: 0 <= i < |s| ==> !('A' <= s[i] <= 'F')
    ensures 0 <= HexValue(s) < Pow16(|s|) && Prefix(HexValue(s), |s|) == s
  {
    hide HexDigit, HexChar;
    if s != "" {
      var n := |s| - 1;
      EveryPrefix(s[..n]);
      HexCharBack(s[n]);
      DivModUnique(HexValue(s), HexValue(s[..n]), HexDigit(s[n]).value, 16);
      assert s == s[..n] + [s[n]];
    }
  }

  lemma IndexOfPrefix(m: nat, n: nat, k: nat)
    requires n > 1 && k > 0 && m < Pow16(k)
    ensures GetIndex(Prefix(m, k), n, k) == if m < INT64_LIMIT then m % n else 0
  {
    PrefixValue(m, k);
    var p := Prefix(m, k);
    assert p[0..k] == p;
  }

  /** How many of the first `bound` prefixes of `k` digits go to worker `i`. */
  function Load(n: nat, k: nat, i: int, bound: nat): nat
  {
    if bound == 0 then 0
    else Load(n, k, i, bound - 1) + if GetIndex(Prefix(bound - 1, k), n, k) == i then 1 else 0
  }

  lemma LoadStep(n: nat, k: nat, i: int, q: nat, r: nat, bound: nat)
    requires n > 1 && k > 0 && 0 <= i < n && 0 < r <= n
    requires bound == q * n + r <= Pow16(k) && bound <= INT64_LIMIT
    ensures Load(n, k, i, bound) == Load(n, k, i, bound - 1) + if i == r - 1 then 1 else 0
  {
    hide GetIndex, Prefix, Pow16;
    IndexOfPrefix(bound - 1, n, k);
    DivModUnique(bound - 1, q, r - 1, n);
  }

  /** Below the 64-bit limit every block of `n` prefixes reaches every worker once. */
  lemma {:induction false} LoadOfBlocks(n: nat, k: nat, i: int, q: nat, r: nat, bound: nat)
    requires n > 1 && k > 0 && 0 <= i < n && r <= n
    requires bound == q * n + r <= Pow16(k) && bound <= INT64_LIMIT
    ensures Load(n, k, i, bound) == q + if i < r then 1 else 0
    decreases q, r
  {
    hide Load, Pow16;
    if r > 0 {
      LoadStep(n, k, i, q, r, bound);
      LoadOfBlocks(n, k, i, q, r - 1, bound - 1);
    } else if q > 0 {
      assert q * n == (q - 1) * n + n;
      LoadOfBlocks(n, k, i, q - 1, n, bound);
    } else {
      assert bound == 0;
      NothingLoaded(n, k, i);
    }
  }

  lemma NothingLoaded(n: nat, k: nat, i: int)
    ensures Load(n, k, i, 0) == 0
  {
  }

  /** Past the limit the parser fails and everything goes to worker 0. */
  lemma {:induction false} LoadPastLimit(n: nat, k: nat, i: int, bound: nat)
    requires n > 1 && k > 0 && 0 < i < n && INT64_LIMIT <= bound <= Pow16(k)
    ensures Load(n, k, i, bound) == Load(n, k, i, INT64_LIMIT)
    decreases bound
  {
    hide GetIndex, Prefix, Pow16;
    if bound > INT64_LIMIT {
      IndexOfPrefix(bound - 1, n, k);
      LoadPastLimit(n, k, i, bound - 1);
    }
  }

  // ----- Balance -----

  lemma {:induction false} Pow2Sum(a: nat, b: nat)
    ensures Pow2(a + b) == Pow2(a) * Pow2(b)
  {
    if a > 0 {
      Pow2Sum(a - 1, b);
    }
  }

  lemma {:induction false} Pow16IsPow2(k: nat)
    ensures Pow16(k) == Pow2(4 * k)
  {
    if k > 0 {
      Pow16IsPow2(k - 1);
      assert Pow2(4 * k) == 2 * Pow2(4 * k - 1) == 4 * Pow2(4 * k - 2) == 8 * Pow2(4 * k - 3) == 16 * Pow2(4 * k - 4);
    }
  }

  lemma {:induction false} HexLenBounds(n: nat)
    requires n > 0
    ensures Pow16(HexLen(n) - 1) <= n < Pow16(HexLen(n))
  {
    if n >= 16 {
      HexLenBounds(n / 16);
      var k := HexLen(n / 16);
      assert Pow16(k) == 16 * Pow16(k - 1) && Pow16(k + 1) == 16 * Pow16(k);
    }
  }

  lemma {:induction false} Pow2Mono(a: nat, b: nat)
    requires a <= b
    ensures 0 < Pow2(a) <= Pow2(b)
  {
    if a < b {
      Pow2Mono(a, b - 1);
    } else if a > 0 {
      Pow2Mono(a - 1, a - 1);
    }
  }

  lemma {:induction false} Pow16Mono(a: nat, b: nat)
    requires a <= b
    ensures 0 < Pow16(a) <= Pow16(b)
  {
    if a < b {
      Pow16Mono(a, b - 1);
    } else if a > 0 {
      Pow16Mono(a - 1, a - 1);
    }
  }

  /** A power of two divides every larger one. */
  lemma Divides(a: nat, b: nat) returns (q: nat)
    requires Pow2(a) <= Pow2(b)
    ensures Pow2(b) == q * Pow2(a)
  {
    if b < a {
      Pow2Mono(b, a);
      q := 1;
    } else {
      Pow2Sum(a, b - a);
      q := Pow2(b - a);
    }
  }

  lemma Constants()
    ensures Pow16(15) == 0x1000_0000_0000_0000 && Pow16(16) == 2 * INT64_LIMIT && Pow2(63) == INT64_LIMIT
  {
    assert Pow16(2) == 0x100 && Pow16(4) == 0x1_0000;
    assert Pow16(6) == 0x100_0000 && Pow16(8) == 0x1_0000_0000;
    assert Pow16(10) == 0x100_0000_0000 && Pow16(12) == 0x1_0000_0000_0000;
    assert Pow16(14) == 0x100_0000_0000_0000 && Pow16(15) == 0x1000_0000_0000_0000;
    Pow16IsPow2(16);
    assert Pow2(64) == 2 * Pow2(63);
  }

  /** The number of prefixes per worker that an even spread would give. */
  predicate EvenSpread(n: nat, k: nat, i: int) {
    Load(n, k, i, Pow16(k)) * n == Pow16(k)
  }

  lemma SmallIsBalanced(n: nat, i: int)
    requires AcceptsWorkerNum(n) && 1 < n < Pow16(15) && 0 <= i < n
    ensures EvenSpread(n, HexLen(n), i)
  {
    hide Load, Pow16, Pow2, HexLen;
    var k := HexLen(n);
    var a := HalvesTo(n);
    Constants();
    HexLenBounds(n);
    if k > 15 {
      Pow16Mono(15, k - 1);
    }
    Pow16Mono(k, 15);
    Pow16IsPow2(k);
    var q := Divides(a, 4 * k);
    LoadOfBlocks(n, k, i, q, 0, Pow16(k));
  }

  lemma LargeIsNot(n: nat)
    requires AcceptsWorkerNum(n) && Pow16(15) <= n < INT64_LIMIT
    ensures !EvenSpread(n, HexLen(n), 1)
  {
    hide Load, Pow16, Pow2, HexLen;
    var k := HexLen(n);
    var a := HalvesTo(n);
    Constants();
    HexLenBounds(n);
    if k < 16 {
      Pow16Mono(k, 15);
    } else if k > 16 {
      Pow16Mono(16, k - 1);
    }
    var q := Divides(a, 63);
    LoadOfBlocks(n, k, 1, q, 0, INT64_LIMIT);
    LoadPastLimit(n, k, 1, Pow16(k));
  }

  /** For every accepted worker count above one that fits a 64-bit int: each worker gets its
      equal share of the prefixes exactly when the count has at most fifteen hex digits. With
      sixteen, half of the prefixes no longer parse and end up at worker 0. */
  lemma BalancedIff(n: nat)
    requires AcceptsWorkerNum(n) && 1 < n < INT64_LIMIT
    ensures (forall i :: 0 <= i < n ==> EvenSpread(n, HexLen(n), i)) <==> n < Pow16(15)
  {
    hide EvenSpread, Pow16, HexLen;
    if n < Pow16(15) {
      forall i | 0 <= i < n ensures EvenSpread(n, HexLen(n), i) {
        SmallIsBalanced(n, i);
      }
    } else {
      LargeIsNot(n);
    }
  }
}
