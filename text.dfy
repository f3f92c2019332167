/** String primitives the core borrows from Go's standard library: ASCII stand-ins for
    strings.ToLower and strings.Contains, strings.TrimSpace with unicode.IsSpace,
    strings.Join, strconv.Atoi and the `%d` formatting used for SQL placeholders. */
module Text {
  import opened Wrappers

  const MaxInt64: int := 0x7FFF_FFFF_FFFF_FFFF
  const MinInt64: int := -0x8000_0000_0000_0000
  const MaxUint64: int := 0xFFFF_FFFF_FFFF_FFFF

  // ---------------------------------------------------------------- case folding

  /** ASCII lower-casing of one character. */
  function Lower(c: char): char {
    if 'A' <= c <= 'Z' then (c as int - 'A' as int + 'a' as int) as char else c
  }

  function ToLower(s: string): (r: string)
    ensures |r| == |s|
    ensures forall i :: 0 <= i < |s| ==> r[i] == Lower(s[i])
  {
    if s == [] then [] else [Lower(s[0])] + ToLower(s[1..])
  }

  lemma {:induction false} ToLowerSlice(s: string, i: nat, j: nat)
    requires i <= j <= |s|
    ensures ToLower(s)[i..j] == ToLower(s[i..j])
  {
    var whole, part := ToLower(s), ToLower(s[i..j]);
    forall k | 0 <= k < j - i
      ensures whole[i..j][k] == part[k]
    {
      assert part[k] == Lower(s[i..j][k]);
    }
  }

  // ---------------------------------------------------------------- substring search

  /** `pat` occurs in `s` starting at index `i`. */
  ghost predicate OccursAt(pat: string, s: string, i: int) {
    0 <= i && i + |pat| <= |s| && s[i..i + |pat|] == pat
  }

  ghost predicate IsSubstring(pat: string, s: string) {
    exists i :: OccursAt(pat, s, i)
  }

  lemma OccursInTail(pat: string, s: string)
    requires |s| > 0
    ensures IsSubstring(pat, s) <==> OccursAt(pat, s, 0) || IsSubstring(pat, s[1..])
  {
    if IsSubstring(pat, s) {
      var i :| OccursAt(pat, s, i);
      if i > 0 {
        assert s[1..][i - 1..i - 1 + |pat|] == s[i..i + |pat|];
        assert OccursAt(pat, s[1..], i - 1);
      }
    }
    if IsSubstring(pat, s[1..]) {
      var i :| OccursAt(pat, s[1..], i);
      assert s[1..][i..i + |pat|] == s[i + 1..i + 1 + |pat|];
      assert OccursAt(pat, s, i + 1);
    }
  }

  /** strings.Contains as a left-to-right scan: is `pat` a substring of `s`? */
  function Contains(s: string, pat: string): (r: bool)
    ensures r <==> IsSubstring(pat, s)
    decreases |s|
  {
    if |s| < |pat| then
      assert forall i :: !OccursAt(pat, s, i);
      false
    else if s[..|pat|] == pat then
      assert OccursAt(pat, s, 0);
      true
    else
      OccursInTail(pat, s);
      Contains(s[1..], pat)
  }

  /** Does any keyword of `keys` occur in `s`? (The keyword loops of the heuristics.) */
  function ContainsAny(s: string, keys: seq<string>): (r: bool)
    ensures r <==> exists k :: 0 <= k < |keys| && IsSubstring(keys[k], s)
  {
    if keys == [] then false
    else
      assert forall k :: 1 <= k < |keys| ==> keys[1..][k - 1] == keys[k];
      Contains(s, keys[0]) || ContainsAny(s, keys[1..])
  }

  // ---------------------------------------------------------------- white space

  /** unicode.IsSpace: the Latin-1 spaces and the other White_Space code points. */
  predicate IsSpace(c: char) {
    c == ' ' || c == '\t' || c == '\n' || c == '\U{000B}' || c == '\U{000C}' || c == '\r'
    || c == '\U{0085}' || c == '\U{00A0}' || c == '\U{1680}' || ('\U{2000}' <= c <= '\U{200A}')
    || c == '\U{2028}' || c == '\U{2029}' || c == '\U{202F}' || c == '\U{205F}' || c == '\U{3000}'
  }

  ghost predicate AllSpace(s: string) {
    forall i :: 0 <= i < |s| ==> IsSpace(s[i])
  }

  /** The scan for the start of the text: the first index at or after `i` whose character is
      not white space, or |s| when there is none. */
  function SkipSpace(s: string, i: nat): (k: nat)
    requires i <= |s|
    ensures i <= k <= |s|
    ensures forall j :: i <= j < k ==> IsSpace(s[j])
    ensures k < |s| ==> !IsSpace(s[k])
    decreases |s| - i
  {
    if i < |s| && IsSpace(s[i]) then SkipSpace(s, i + 1) else i
  }

  /** The scan back from `hi` for the end of the text, never past `lo`: the least `k` such that
      everything in s[k..hi] is white space. */
  function SkipSpaceBack(s: string, lo: nat, hi: nat): (k: nat)
    requires lo <= hi <= |s|
    ensures lo <= k <= hi
    ensures forall j :: k <= j < hi ==> IsSpace(s[j])
    ensures lo < k ==> !IsSpace(s[k - 1])
    decreases hi - lo
  {
    if lo < hi && IsSpace(s[hi - 1]) then SkipSpaceBack(s, lo, hi - 1) else hi
  }

  /** strings.TrimSpace: `r` is the slice of `s` left once the white space at both ends is cut. */
  function TrimSpace(s: string): (r: string)
    ensures |r| <= |s|
    ensures r != [] ==> !IsSpace(r[0]) && !IsSpace(r[|r| - 1])
    ensures exists i {:trigger AllSpace(s[..i])} :: 0 <= i && i + |r| <= |s| && r == s[i..i + |r|]
                                                  && AllSpace(s[..i]) && AllSpace(s[i + |r|..])
  {
    var start := SkipSpace(s, 0);
    var stop := SkipSpaceBack(s, start, |s|);
    TrimmedSlice(s, start, stop);
    s[start..stop]
  }

  /** The slice between the two scans is framed by white space and has none at its ends. */
  lemma TrimmedSlice(s: string, start: nat, stop: nat)
    requires start <= stop <= |s|
    requires forall j :: 0 <= j < start ==> IsSpace(s[j])
    requires forall j :: stop <= j < |s| ==> IsSpace(s[j])
    requires start < |s| ==> !IsSpace(s[start])
    requires start < stop ==> !IsSpace(s[stop - 1])
    ensures var r := s[start..stop];
            r != [] ==> !IsSpace(r[0]) && !IsSpace(r[|r| - 1])
    ensures var r := s[start..stop];
            exists i {:trigger AllSpace(s[..i])} :: 0 <= i && i + |r| <= |s| && r == s[i..i + |r|]
                                                && AllSpace(s[..i]) && AllSpace(s[i + |r|..])
  {
    var r := s[start..stop];
    assert start + |r| == stop;
    assert AllSpace(s[..start]);
    assert AllSpace(s[stop..]);
  }

  lemma TrimSpaceNoop(s: string)
    requires s == [] || (!IsSpace(s[0]) && !IsSpace(s[|s| - 1]))
    ensures TrimSpace(s) == s
  {
    assert s[0..|s|] == s;
  }

  /** Scanning back over white space stops right after the last non-space character. */
  lemma {:induction false} SkipSpaceBackTo(s: string, lo: nat, m: nat, hi: nat)
    requires lo < m <= hi <= |s| && !IsSpace(s[m - 1])
    requires forall j :: m <= j < hi ==> IsSpace(s[j])
    ensures SkipSpaceBack(s, lo, hi) == m
    decreases hi - m
  {
    if m < hi {
      SkipSpaceBackTo(s, lo, m, hi - 1);
    }
  }

  /** strings.TrimSpace drops the white space that follows a text with non-space ends. */
  lemma TrimTrailing(a: string, b: string)
    requires a != [] && !IsSpace(a[0]) && !IsSpace(a[|a| - 1]) && AllSpace(b)
    ensures TrimSpace(a + b) == a
  {
    var s := a + b;
    assert SkipSpace(s, 0) == 0;
    SkipSpaceBackTo(s, 0, |a|, |s|);
    assert s[0..|a|] == a;
  }

  // ---------------------------------------------------------------- digits and numbers

  predicate IsDigit(c: char) {
    '0' <= c <= '9'
  }

  predicate AllDigits(s: string) {
    forall i :: 0 <= i < |s| ==> IsDigit(s[i])
  }

  function DigitValue(c: char): nat
    requires IsDigit(c)
  {
    c as int - '0' as int
  }

  function DigitChar(d: nat): (c: char)
    requires d < 10
    ensures IsDigit(c) && DigitValue(c) == d
  {
    ('0' as int + d) as char
  }

  /** The value of a decimal digit string, most significant digit first. */
  function DigitsValue(s: string): (v: nat)
    requires AllDigits(s)
  {
    if s == [] then 0 else DigitsValue(s[..|s| - 1]) * 10 + DigitValue(s[|s| - 1])
  }

  lemma {:induction false} DigitsValueBound(s: string)
    requires AllDigits(s)
    ensures DigitsValue(s) < Pow10(|s|)
  {
    if s != [] {
      DigitsValueBound(s[..|s| - 1]);
    }
  }

  function Pow10(n: nat): (p: nat)
    ensures p >= 1
  {
    if n == 0 then 1 else 10 * Pow10(n - 1)
  }

  /** The `%d` rendering of a natural number: decimal digits without leading zeros. */
  function DecimalString(n: nat): (r: string)
    ensures |r| >= 1 && AllDigits(r) && DigitsValue(r) == n
    ensures r[0] == '0' ==> n == 0
    decreases n
  {
    if n < 10 then
      [DigitChar(n)]
    else
      var prefix := DecimalString(n / 10);
      var r := prefix + [DigitChar(n % 10)];
      assert r[..|r| - 1] == prefix;
      r
  }

  /** What follows an optional leading sign. */
  function Unsigned(s: string): (m: string)
    ensures s != [] && (s[0] == '+' || s[0] == '-') ==> m == s[1..]
    ensures !(s != [] && (s[0] == '+' || s[0] == '-')) ==> m == s
  {
    if s != [] && (s[0] == '+' || s[0] == '-') then s[1..] else s
  }

  /** The syntax strconv accepts in base 10: an optional sign and one or more ASCII digits;
      the value, however large, or None on a syntax error. */
  function ParseSigned(s: string): (r: Option<int>)
    ensures r.Some? <==> s != [] && Unsigned(s) != [] && AllDigits(Unsigned(s))
    ensures r.Some? ==> r.value == if s[0] == '-' then 0 - DigitsValue(Unsigned(s)) else DigitsValue(Unsigned(s))
  {
    if s == [] then None
    else
      var digits := Unsigned(s);
      if digits == [] || !AllDigits(digits) then None
      else Some(if s[0] == '-' then 0 - DigitsValue(digits) else DigitsValue(digits))
  }

  /** strconv.Atoi: a well-formed number whose value fits in 64 bits; any other input is an error. */
  function Atoi(s: string): (r: Option<int>)
    ensures r.Some? <==> ParseSigned(s).Some? && MinInt64 <= ParseSigned(s).value <= MaxInt64
    ensures r.Some? ==> r.value == ParseSigned(s).value
  {
    match ParseSigned(s)
    case None => None
    case Some(v) => if MinInt64 <= v <= MaxInt64 then Some(v) else None
  }

  /** The number of ASCII digits at the start of s. */
  function LeadingDigits(s: string): (n: nat)
    ensures n <= |s| && AllDigits(s[..n])
    ensures n < |s| ==> !IsDigit(s[n])
    ensures n == |s| <==> AllDigits(s)
    decreases |s|
  {
    if s == [] || !IsDigit(s[0]) then 0
    else
      var n := 1 + LeadingDigits(s[1..]);
      assert forall i :: 1 <= i < n ==> s[..n][i] == s[1..][..n - 1][i - 1];
      assert n == |s| ==> s[..n] == s;
      n
  }

  /** The outcome of strconv.ParseUint(s, 10, 64). */
  datatype UintParse = UintValue(value: nat) | UintSyntaxError | UintRangeError

  /** ParseUint's digit loop from position i with n accumulated: a character that is not a
      digit is a syntax error, and the first digit that takes the value past 2^64 - 1 is a
      range error, whatever follows it. Go's two overflow tests (n at or above the cutoff
      before the multiplication, a wrap-around or a value above maxVal after the addition)
      together say that n * 10 + d exceeds 2^64 - 1. */
  function ScanUint(s: string, i: nat, n: nat): UintParse
    requires i <= |s|
    decreases |s| - i
  {
    if i == |s| then UintValue(n)
    else if !IsDigit(s[i]) then UintSyntaxError
    else if n * 10 + DigitValue(s[i]) > MaxUint64 then UintRangeError
    else ScanUint(s, i + 1, n * 10 + DigitValue(s[i]))
  }

  /** A prefix of a digit string is worth no more than the whole. */
  lemma {:induction false} PrefixValueMono(t: string, j: nat)
    requires AllDigits(t) && j <= |t|
    ensures DigitsValue(t[..j]) <= DigitsValue(t)
    decreases |t|
  {
    if j < |t| {
      var front := t[..|t| - 1];
      assert front[..j] == t[..j];
      PrefixValueMono(front, j);
    } else {
      assert t[..j] == t;
    }
  }

  /** Started on a digit prefix that has not overflowed, the loop's outcome is decided by
      the leading run of digits: a range error when its value exceeds 2^64 - 1, otherwise a
      syntax error when anything follows it, otherwise the value of the whole string. */
  lemma {:induction false} ScanUintSpec(s: string, i: nat)
    requires i <= LeadingDigits(s)
    requires AllDigits(s[..i]) && DigitsValue(s[..i]) <= MaxUint64
    ensures var k := LeadingDigits(s);
            ScanUint(s, i, DigitsValue(s[..i]))
              == if DigitsValue(s[..k]) > MaxUint64 then UintRangeError
                 else if k < |s| then UintSyntaxError
                 else UintValue(DigitsValue(s))
    decreases |s| - i
  {
    var k := LeadingDigits(s);
    if i == k {
      assert k == |s| ==> s[..k] == s;
    } else {
      DigitStep(s, i);
      if DigitsValue(s[..i + 1]) > MaxUint64 {
        RunValueMono(s, i + 1);
      } else {
        ScanUintSpec(s, i + 1);
      }
    }
  }

  /** One more digit of the leading run: the accumulated value times ten plus the digit. */
  lemma DigitStep(s: string, i: nat)
    requires i < LeadingDigits(s) && AllDigits(s[..i])
    ensures IsDigit(s[i]) && AllDigits(s[..i + 1])
    ensures DigitsValue(s[..i + 1]) == DigitsValue(s[..i]) * 10 + DigitValue(s[i])
  {
    RunDigit(s, i);
    AppendDigit(s, i);
  }

  lemma RunDigit(s: string, i: nat)
    requires i < LeadingDigits(s)
    ensures IsDigit(s[i])
  {
    assert s[..LeadingDigits(s)][i] == s[i];
  }

  lemma AppendDigit(s: string, i: nat)
    requires i < |s| && IsDigit(s[i]) && AllDigits(s[..i])
    ensures AllDigits(s[..i + 1])
    ensures DigitsValue(s[..i + 1]) == DigitsValue(s[..i]) * 10 + DigitValue(s[i])
  {
    var next := s[..i + 1];
    assert next[..|next| - 1] == s[..i] && next[|next| - 1] == s[i];
  }

  /** The whole leading run is worth at least each of its prefixes. */
  lemma RunValueMono(s: string, j: nat)
    requires j <= LeadingDigits(s) && AllDigits(s[..j])
    ensures DigitsValue(s[..j]) <= DigitsValue(s[..LeadingDigits(s)])
  {
    var run := s[..LeadingDigits(s)];
    assert run[..j] == s[..j];
    PrefixValueMono(run, j);
  }

  /** strconv.ParseUint(s, 10, 64): an empty string is a syntax error, otherwise the digit
      loop from 0. A range error exactly when the leading digits are worth more than
      2^64 - 1; a value exactly for a digit string worth at most that. */
  function ParseUint64(s: string): (r: UintParse)
    ensures r.UintRangeError? <==> DigitsValue(s[..LeadingDigits(s)]) > MaxUint64
    ensures r.UintValue? <==> s != [] && AllDigits(s) && DigitsValue(s) <= MaxUint64
    ensures r.UintValue? ==> r.value == DigitsValue(s)
    ensures r.UintSyntaxError? <==> s == [] || (!AllDigits(s) && DigitsValue(s[..LeadingDigits(s)]) <= MaxUint64)
  {
    if s == [] then UintSyntaxError
    else
      assert s[..0] == [];
      ScanUintSpec(s, 0);
      assert LeadingDigits(s) == |s| ==> s[..|s|] == s;
      ScanUint(s, 0, 0)
  }

  /** The digits after the sign run past 2^64 - 1 before any character that is not a digit:
      ParseUint stops there with a range error. */
  predicate OverflowsFirst(s: string) {
    var m := Unsigned(s);
    s != [] && DigitsValue(m[..LeadingDigits(m)]) > MaxUint64
  }

  /** strconv.ParseInt(s, 10, 64) with its error dropped: "" is a syntax error; otherwise an
      optional sign, then ParseUint on the rest. A syntax error gives 0; a range error, or
      a magnitude past the int64 bound of the sign, gives that bound. */
  function ParseInt64OrZero(s: string): (r: int)
    ensures MinInt64 <= r <= MaxInt64
    ensures Atoi(s).Some? ==> r == Atoi(s).value
    ensures ParseSigned(s).None? && !OverflowsFirst(s) ==> r == 0
    ensures OverflowsFirst(s) ==> r == if s[0] == '-' then MinInt64 else MaxInt64
    ensures ParseSigned(s).Some? && ParseSigned(s).value > MaxInt64 ==> r == MaxInt64
    ensures ParseSigned(s).Some? && ParseSigned(s).value < MinInt64 ==> r == MinInt64
  {
    if s == [] then 0
    else
      var neg := s[0] == '-';
      match ParseUint64(Unsigned(s))
      case UintSyntaxError => 0
      case UintRangeError => if neg then MinInt64 else MaxInt64
      case UintValue(u) =>
        if !neg && u > MaxInt64 then MaxInt64
        else if neg && u > 0 - MinInt64 then MinInt64
        else if neg then 0 - u else u
  }

  /** A run of digits worth more than 2^64 - 1 saturates whatever follows it, even text that
      makes the string malformed: ParseUint reports the overflow at the digit that causes it,
      before it reaches the rest. */
  lemma OverflowThenText(digits: string, rest: string)
    requires AllDigits(digits) && DigitsValue(digits) > MaxUint64
    ensures ParseInt64OrZero(digits + rest) == MaxInt64
    ensures ParseInt64OrZero("-" + digits + rest) == MinInt64
    ensures rest != [] && !IsDigit(rest[0]) ==> ParseSigned(digits + rest).None?
  {
    OverflowPositive(digits, rest);
    OverflowNegative(digits, rest);
    if rest != [] && !IsDigit(rest[0]) {
      var m := digits + rest;
      assert m[|digits|] == rest[0];
    }
  }

  lemma OverflowPositive(digits: string, rest: string)
    requires AllDigits(digits) && DigitsValue(digits) > MaxUint64
    ensures ParseInt64OrZero(digits + rest) == MaxInt64
  {
    OverflowRun(digits, rest);
    var m := digits + rest;
    assert Unsigned(m) == m;
    assert OverflowsFirst(m);
  }

  lemma OverflowNegative(digits: string, rest: string)
    requires AllDigits(digits) && DigitsValue(digits) > MaxUint64
    ensures ParseInt64OrZero("-" + digits + rest) == MinInt64
  {
    OverflowRun(digits, rest);
    var m := digits + rest;
    var s := "-" + m;
    assert s[0] == '-' && s[1..] == m;
    assert OverflowsFirst(s);
    assert s == "-" + digits + rest;
  }

  /** Such a run at the start of m is an overflow ParseUint meets first. */
  lemma OverflowRun(digits: string, rest: string)
    requires AllDigits(digits) && DigitsValue(digits) > MaxUint64
    ensures var m := digits + rest;
            m != [] && IsDigit(m[0]) && DigitsValue(m[..LeadingDigits(m)]) > MaxUint64
  {
    var m := digits + rest;
    assert m[..|digits|] == digits;
    var k := LeadingDigits(m);
    var run := m[..k];
    assert run[..|digits|] == digits;
    PrefixValueMono(run, |digits|);
  }

  lemma AtoiFormatRoundTrip(n: nat)
    requires n <= MaxInt64
    ensures Atoi(DecimalString(n)) == Some(n)
    ensures Atoi("-" + DecimalString(n)) == Some(0 - n)
    ensures Atoi("+" + DecimalString(n)) == Some(n)
  {
    var d := DecimalString(n);
    assert ("-" + d)[1..] == d;
    assert ("+" + d)[1..] == d;
  }

  /** The decimal rendering is the only digit string without a leading zero that has its value. */
  lemma {:induction false} DecimalStringUnique(n: nat, s: string)
    requires |s| >= 1 && AllDigits(s) && DigitsValue(s) == n && (s[0] == '0' ==> |s| == 1)
    ensures DecimalString(n) == s
    decreases |s|
  {
    var d := DecimalString(n);
    if |s| == 1 {
      assert DigitsValue(s[..0]) == 0;
      assert n == DigitValue(s[0]) < 10;
      assert d == [DigitChar(n)];
    } else {
      var prefix := s[..|s| - 1];
      assert prefix[0] == s[0];
      assert s[0] != '0';
      assert DigitsValue(prefix) == n / 10 && DigitValue(s[|s| - 1]) == n % 10;
      assert prefix[0] != '0';
      DigitsValueLeading(prefix);
      assert n >= 10;
      DecimalStringUnique(n / 10, prefix);
      assert s == prefix + [s[|s| - 1]];
      assert s[|s| - 1] == DigitChar(n % 10);
    }
  }

  /** A digit string of two or more digits that does not start with 0 has a value of at least 1. */
  lemma {:induction false} DigitsValueLeading(s: string)
    requires |s| >= 1 && AllDigits(s) && s[0] != '0'
    ensures DigitsValue(s) >= 1
    decreases |s|
  {
    if |s| > 1 {
      var prefix := s[..|s| - 1];
      assert prefix[0] == s[0];
      DigitsValueLeading(prefix);
    }
  }

  // ---------------------------------------------------------------- joining

  /** strings.Join. */
  function Join(parts: seq<string>, sep: string): string {
    if parts == [] then ""
    else if |parts| == 1 then parts[0]
    else parts[0] + sep + Join(parts[1..], sep)
  }
}
