/**
 * The Python string operations the shop relies on, stated on `seq<char>`:
 * `strip`, `lower`, `split` on one character, `join`, `startswith`,
 * substring search, digit strings, decimal literals, `os.path.splitext`,
 * `os.path.basename` and `pathlib` suffixes.
 */
module Text {
  import opened Wrappers

  // ---------------------------------------------------------------------
  // Whitespace and strip()
  // ---------------------------------------------------------------------

  /** The characters for which Python's `str.isspace()` holds. */
  predicate IsSpace(c: char) {
    c == ' ' || ('\t' <= c <= '\r') || ('\U{1C}' <= c <= '\U{1F}')
    || c == '\U{85}' || c == '\U{A0}' || c == '\U{1680}'
    || ('\U{2000}' <= c <= '\U{200A}') || c == '\U{2028}' || c == '\U{2029}'
    || c == '\U{202F}' || c == '\U{205F}' || c == '\U{3000}'
  }

  predicate AllSpace(s: string) {
    forall i :: 0 <= i < |s| ==> IsSpace(s[i])
  }

  /** Number of leading whitespace characters. */
  function LeadingSpaces(s: string): (k: nat)
    ensures k <= |s|
    ensures AllSpace(s[..k])
    ensures k < |s| ==> !IsSpace(s[k])
  {
    if s == [] || !IsSpace(s[0]) then 0
    else
      var k := 1 + LeadingSpaces(s[1..]);
      assert s[..k] == [s[0]] + s[1..][..k - 1];
      k
  }

  /** Number of trailing whitespace characters. */
  function TrailingSpaces(s: string): (k: nat)
    ensures k <= |s|
    ensures AllSpace(s[|s| - k..])
    ensures k < |s| ==> !IsSpace(s[|s| - 1 - k])
    ensures |s| > 0 && !IsSpace(s[0]) ==> k < |s|
  {
    if s == [] || !IsSpace(s[|s| - 1]) then 0
    else
      var k := 1 + TrailingSpaces(s[..|s| - 1]);
      assert s[|s| - k..] == s[..|s| - 1][|s| - k..] + [s[|s| - 1]];
      k
  }

  /** Python's `s.strip()`. */
  function Strip(s: string): (r: string)
    ensures |r| <= |s|
    ensures r == [] || (!IsSpace(r[0]) && !IsSpace(r[|r| - 1]))
    ensures r == [] <==> AllSpace(s)
    ensures LeadingSpaces(s) + |r| <= |s| && r == s[LeadingSpaces(s)..LeadingSpaces(s) + |r|]
  {
    var a := LeadingSpaces(s);
    if a == |s| then
      assert s[..a] == s;
      []
    else
      var b := TrailingSpaces(s[a..]);
      assert !IsSpace(s[a]) && s[a..][0] == s[a];
      assert s[a..][|s| - a - 1 - b] == s[|s| - 1 - b];
      s[a..|s| - b]
  }

  /** A string that neither starts nor ends with whitespace has none to strip. */
  lemma StripPlain(s: string)
    requires s == [] || (!IsSpace(s[0]) && !IsSpace(s[|s| - 1]))
    ensures Strip(s) == s
  {
    if s != [] {
      assert LeadingSpaces(s) == 0;
      assert s[0..] == s;
      assert TrailingSpaces(s) == 0;
    }
  }

  /** One whitespace character after digits is stripped. */
  lemma StripTrailingSpace(d: string, c: char)
    requires IsDigits(d) && IsSpace(c)
    ensures Strip(d + [c]) == d
  {
    var x := d + [c];
    assert x[0] == d[0];
    assert LeadingSpaces(x) == 0;
    assert x[0..] == x;
    assert x[..|x| - 1] == d;
    assert !IsSpace(d[|d| - 1]);
    assert TrailingSpaces(d) == 0;
    assert TrailingSpaces(x) == 1;
  }

  /** A string of digits has no surrounding whitespace to strip. */
  lemma StripDigits(s: string)
    requires IsDigits(s)
    ensures Strip(s) == s
  {
    assert !IsSpace(s[0]) && !IsSpace(s[|s| - 1]);
    StripPlain(s);
  }

  lemma {:induction false} StripIdempotent(s: string)
    ensures Strip(Strip(s)) == Strip(s)
  {
    var r := Strip(s);
    if r != [] {
      assert LeadingSpaces(r) == 0;
      assert r[LeadingSpaces(r)..LeadingSpaces(r) + |Strip(r)|] == r[..|Strip(r)|];
      assert TrailingSpaces(r) == 0;
    } else {
      assert AllSpace(r);
    }
  }

  // ---------------------------------------------------------------------
  // Case mapping
  // ---------------------------------------------------------------------

  /** Lower-case mapping of Python's `str.lower()` on Latin and Cyrillic capitals. */
  function LowerChar(c: char): char {
    if 'A' <= c <= 'Z' then ((c as int) + 32) as char
    else if '\U{410}' <= c <= '\U{42F}' then ((c as int) + 32) as char
    else if '\U{400}' <= c <= '\U{40F}' then ((c as int) + 80) as char
    else c
  }

  /** Python's `s.lower()` (Latin and Cyrillic alphabets). */
  function Lower(s: string): (r: string)
    ensures |r| == |s|
    ensures forall i :: 0 <= i < |s| ==> r[i] == LowerChar(s[i])
  {
    seq(|s|, i requires 0 <= i < |s| => LowerChar(s[i]))
  }

  lemma LowerIdempotent(s: string)
    ensures Lower(Lower(s)) == Lower(s)
  {
  }

  /** Python's `s.upper()` on ASCII letters, used for hexadecimal digits. */
  function UpperAscii(s: string): (r: string)
    ensures |r| == |s|
    ensures forall i :: 0 <= i < |s| ==> r[i] == (if 'a' <= s[i] <= 'z' then ((s[i] as int) - 32) as char else s[i])
  {
    seq(|s|, i requires 0 <= i < |s| => if 'a' <= s[i] <= 'z' then ((s[i] as int) - 32) as char else s[i])
  }

  // ---------------------------------------------------------------------
  // Searching
  // ---------------------------------------------------------------------

  /** Index of the first occurrence of `c` in `s`. */
  function IndexOf(s: string, c: char): (i: nat)
    requires c in s
    ensures i < |s| && s[i] == c && c !in s[..i]
  {
    if s[0] == c then 0
    else
      var i := 1 + IndexOf(s[1..], c);
      assert s[..i] == [s[0]] + s[1..][..i - 1];
      i
  }

  /** Index of the last occurrence of `c` in `s`, or -1 (Python's `rfind`). */
  function LastIndexOf(s: string, c: char): (i: int)
    ensures -1 <= i < |s|
    ensures i == -1 <==> c !in s
    ensures i >= 0 ==> s[i] == c && c !in s[i + 1..]
  {
    if s == [] then -1
    else if s[|s| - 1] == c then |s| - 1
    else
      var i := LastIndexOf(s[..|s| - 1], c);
      assert s == s[..|s| - 1] + [s[|s| - 1]];
      assert i >= 0 ==> s[i + 1..] == s[..|s| - 1][i + 1..] + [s[|s| - 1]];
      i
  }

  /** A position holding `c` with no `c` after it is the last occurrence. */
  lemma LastIndexOfIs(s: string, c: char, k: nat)
    requires k < |s| && s[k] == c && c !in s[k + 1..]
    ensures LastIndexOf(s, c) == k
  {
  }

  /** Python's `t in s` for strings: `t` occurs in `s` as a substring. */
  predicate Contains(s: string, t: string) {
    exists i :: 0 <= i <= |s| - |t| && OccursAt(s, t, i)
  }

  /** `t` occurs in `s` starting at index `i`. */
  predicate OccursAt(s: string, t: string, i: nat) {
    i + |t| <= |s| && s[i..i + |t|] == t
  }

  /** Django's `icontains`: substring test after lower-casing both sides. */
  predicate IContains(s: string, t: string) {
    Contains(Lower(s), Lower(t))
  }

  /** Python's `s[:n]`. */
  function Take(s: string, n: nat): (r: string)
    ensures |r| <= n && r <= s
    ensures |s| <= n ==> r == s
  {
    if |s| <= n then s else s[..n]
  }

  // ---------------------------------------------------------------------
  // split / join / replace
  // ---------------------------------------------------------------------

  /** Python's `sep.join(parts)`. */
  function Join(parts: seq<string>, sep: string): string {
    if |parts| == 0 then ""
    else if |parts| == 1 then parts[0]
    else parts[0] + sep + Join(parts[1..], sep)
  }

  /** Python's `s.split(sep)` for a one-character separator. */
  function Split(s: string, sep: char): (parts: seq<string>)
    ensures |parts| >= 1
    ensures forall i :: 0 <= i < |parts| ==> sep !in parts[i]
    decreases |s|
  {
    if sep !in s then [s]
    else
      var i := IndexOf(s, sep);
      [s[..i]] + Split(s[i + 1..], sep)
  }

  lemma {:induction false} SplitThenJoin(s: string, sep: char)
    ensures Join(Split(s, sep), [sep]) == s
    decreases |s|
  {
    if sep in s {
      var i := IndexOf(s, sep);
      SplitThenJoin(s[i + 1..], sep);
      assert Split(s, sep)[1..] == Split(s[i + 1..], sep);
      assert s == s[..i] + [sep] + s[i + 1..];
    }
  }

  lemma {:induction false} JoinThenSplit(parts: seq<string>, sep: char)
    requires |parts| >= 1
    requires forall i :: 0 <= i < |parts| ==> sep !in parts[i]
    ensures Split(Join(parts, [sep]), sep) == parts
    decreases |parts|
  {
    if |parts| > 1 {
      JoinThenSplit(parts[1..], sep);
      SplitAfterFirst(parts[0], Join(parts[1..], [sep]), sep);
      assert parts == [parts[0]] + parts[1..];
    }
  }

  /** Splitting at a first separator peels off the text before it. */
  lemma SplitAfterFirst(p: string, q: string, sep: char)
    requires sep !in p
    ensures Split(p + [sep] + q, sep) == [p] + Split(q, sep)
  {
    var s := p + [sep] + q;
    assert s[|p|] == sep && s[..|p|] == p;
    assert IndexOf(s, sep) == |p|;
    assert s[|p| + 1..] == q;
  }

  /** The text after the last `sep` (Python's `s.split(sep)[-1]`). */
  function LastField(s: string, sep: char): (r: string)
    ensures sep !in r
  {
    var parts := Split(s, sep);
    parts[|parts| - 1]
  }

  /** The last field is a suffix of the text: the text after its last separator. */
  lemma {:induction false} LastFieldIsSuffix(s: string, sep: char)
    ensures |LastField(s, sep)| <= |s| && LastField(s, sep) == s[|s| - |LastField(s, sep)|..]
    decreases |s|
  {
    if sep in s {
      var i := IndexOf(s, sep);
      var t := s[i + 1..];
      LastFieldIsSuffix(t, sep);
      var parts := Split(t, sep);
      assert Split(s, sep) == [s[..i]] + parts;
      assert LastField(s, sep) == LastField(t, sep);
      var last := LastField(t, sep);
      assert t[|t| - |last|..] == s[|s| - |last|..];
    } else {
      assert Split(s, sep) == [s];
    }
  }

  /** A field ahead of the first separator does not change the last field. */
  lemma LastFieldAfterFirst(p: string, q: string, sep: char)
    requires sep !in p
    ensures LastField(p + [sep] + q, sep) == LastField(q, sep)
  {
    SplitAfterFirst(p, q, sep);
  }

  /** With a separator present, the last field is the text after its last occurrence. */
  lemma {:induction false} LastFieldAfterLast(s: string, sep: char)
    requires sep in s
    ensures LastField(s, sep) == s[LastIndexOf(s, sep) + 1..]
    decreases |s|
  {
    var i := IndexOf(s, sep);
    if sep in s[i + 1..] {
      LastFieldAfterLast(s[i + 1..], sep);
      LastFieldStep(s, sep, i);
    } else {
      LastFieldOfOneSep(s, sep, i);
    }
  }

  /** Past the first separator, the last field of the rest is the last field of the whole. */
  lemma LastFieldStep(s: string, sep: char, i: nat)
    requires i < |s| && s[i] == sep && sep !in s[..i] && sep in s[i + 1..]
    requires LastField(s[i + 1..], sep) == s[i + 1..][LastIndexOf(s[i + 1..], sep) + 1..]
    ensures LastField(s, sep) == s[LastIndexOf(s, sep) + 1..]
  {
    var t := s[i + 1..];
    LastFieldSkipsFirst(s, sep, i);
    LastIndexOfInTail(s, sep, i + 1);
    assert t[LastIndexOf(t, sep) + 1..] == s[LastIndexOf(s, sep) + 1..];
  }

  /** The last field does not change when everything up to the first separator is dropped. */
  lemma LastFieldSkipsFirst(s: string, sep: char, i: nat)
    requires i < |s| && s[i] == sep && sep !in s[..i]
    ensures LastField(s, sep) == LastField(s[i + 1..], sep)
  {
    assert s == s[..i] + [sep] + s[i + 1..];
    LastFieldAfterFirst(s[..i], s[i + 1..], sep);
  }

  /** With a single separator, the last field is everything after it. */
  lemma LastFieldOfOneSep(s: string, sep: char, i: nat)
    requires i < |s| && s[i] == sep && sep !in s[..i] && sep !in s[i + 1..]
    ensures LastField(s, sep) == s[LastIndexOf(s, sep) + 1..]
  {
    var t := s[i + 1..];
    LastFieldSkipsFirst(s, sep, i);
    assert Split(t, sep) == [t];
    LastIndexOfIs(s, sep, i);
  }

  /** When `c` occurs in a tail of `s`, its last occurrence in `s` is its last one in that tail, shifted. */
  lemma LastIndexOfInTail(s: string, c: char, d: nat)
    requires d <= |s| && c in s[d..]
    ensures LastIndexOf(s, c) == d + LastIndexOf(s[d..], c)
  {
    var t := s[d..];
    var j := LastIndexOf(t, c);
    assert s[d + j] == t[j];
    assert s[d + j + 1..] == t[j + 1..];
    LastIndexOfIs(s, c, d + j);
  }

  /** The text before the first `sep` (Python's `s.split(sep)[0]`). */
  function FirstField(s: string, sep: char): (r: string)
    ensures sep !in r
    ensures r <= s
    ensures sep !in s ==> r == s
  {
    if sep !in s then s else s[..IndexOf(s, sep)]
  }

  /** Python's `s.replace(a, b)` for single characters. */
  function ReplaceChar(s: string, a: char, b: char): (r: string)
    ensures |r| == |s|
    ensures forall i :: 0 <= i < |s| ==> r[i] == if s[i] == a then b else s[i]
  {
    seq(|s|, i requires 0 <= i < |s| => if s[i] == a then b else s[i])
  }

  /** Python's `s.replace(c, '')`. */
  function RemoveChar(s: string, c: char): (r: string)
    ensures c !in r
    ensures forall x :: x in r <==> x in s && x != c
  {
    if s == [] then []
    else (if s[0] == c then [] else [s[0]]) + RemoveChar(s[1..], c)
  }

  /** Removing a character from a concatenation removes it from each part. */
  lemma {:induction false} RemoveCharConcat(a: string, b: string, c: char)
    ensures RemoveChar(a + b, c) == RemoveChar(a, c) + RemoveChar(b, c)
    decreases |a|
  {
    if a != [] {
      assert (a + b)[0] == a[0];
      assert (a + b)[1..] == a[1..] + b;
      RemoveCharConcat(a[1..], b, c);
    } else {
      assert a + b == b;
    }
  }

  /** Removing a character the text does not hold changes nothing. */
  lemma RemoveCharAbsent(s: string, c: char)
    requires c !in s
    ensures RemoveChar(s, c) == s
    decreases |s|
  {
    if s != [] {
      RemoveCharAbsent(s[1..], c);
    }
  }

  /** Removing a character other than the first keeps the first. */
  lemma RemoveCharHead(s: string, c: char)
    requires s != [] && s[0] != c
    ensures RemoveChar(s, c) != [] && RemoveChar(s, c)[0] == s[0]
  {
  }

  /** Python's `s.replace(pat, rep)` for a non-empty pattern: every occurrence, left to right. */
  function Replace(s: string, pat: string, rep: string): string
    requires pat != []
    decreases |s|
  {
    if |s| < |pat| then s
    else if pat <= s then rep + Replace(s[|pat|..], pat, rep)
    else [s[0]] + Replace(s[1..], pat, rep)
  }

  lemma {:induction false} ReplaceAbsent(s: string, pat: string, rep: string)
    requires pat != []
    requires !Contains(s, pat)
    ensures Replace(s, pat, rep) == s
    decreases |s|
  {
    if |s| >= |pat| {
      assert !(pat <= s) by { if pat <= s { assert OccursAt(s, pat, 0); } }
      assert !Contains(s[1..], pat) by {
        if Contains(s[1..], pat) {
          var i :| 0 <= i <= |s[1..]| - |pat| && OccursAt(s[1..], pat, i);
          assert s[1..][i..i + |pat|] == s[i + 1..i + 1 + |pat|];
          assert OccursAt(s, pat, i + 1);
        }
      }
      ReplaceAbsent(s[1..], pat, rep);
    }
  }

  // ---------------------------------------------------------------------
  // Digit strings
  // ---------------------------------------------------------------------

  predicate IsDigit(c: char) { '0' <= c <= '9' }

  /** Python's `s.isdigit()` on ASCII digits (false for the empty string). */
  predicate IsDigits(s: string) {
    |s| > 0 && forall i :: 0 <= i < |s| ==> IsDigit(s[i])
  }

  predicate AllDigits(s: string) {
    forall i :: 0 <= i < |s| ==> IsDigit(s[i])
  }

  /** Value of a string of decimal digits. */
  function DigitsValue(s: string): nat
    requires AllDigits(s)
  {
    if s == [] then 0
    else DigitsValue(s[..|s| - 1]) * 10 + (s[|s| - 1] as int - '0' as int)
  }

  /** A string of `k` digits is worth less than `10^k`. */
  lemma {:induction false} DigitsValueBelow(s: string)
    requires AllDigits(s)
    ensures DigitsValue(s) < Pow10(|s|)
  {
    if s != [] {
      DigitsValueBelow(s[..|s| - 1]);
    }
  }

  function Pow10(n: nat): (r: nat)
    ensures r >= 1
  {
    if n == 0 then 1 else 10 * Pow10(n - 1)
  }

  function DigitChar(d: nat): char
    requires d < 10
  {
    ('0' as int + d) as char
  }

  /** Python's `str(n)` for a natural number. */
  function NatToString(n: nat): (s: string)
    ensures IsDigits(s)
    ensures n >= 10 ==> s[0] != '0'
  {
    if n < 10 then [DigitChar(n)]
    else
      var p := NatToString(n / 10);
      p + [DigitChar(n % 10)]
  }

  lemma {:induction false} NatToStringValue(n: nat)
    ensures DigitsValue(NatToString(n)) == n
  {
    var s := NatToString(n);
    if n >= 10 {
      NatToStringValue(n / 10);
      assert s[..|s| - 1] == NatToString(n / 10);
    }
  }

  /** Distinct numbers have distinct decimal renderings. */
  lemma NatToStringInjective(a: nat, b: nat)
    requires NatToString(a) == NatToString(b)
    ensures a == b
  {
    NatToStringValue(a);
    NatToStringValue(b);
  }

  /** Python's `str(n)` for an integer. */
  function IntToString(n: int): string {
    if n < 0 then "-" + NatToString(-n) else NatToString(n)
  }

  function Zeros(n: nat): (r: string)
    ensures |r| == n && AllDigits(r)
    ensures forall i :: 0 <= i < n ==> r[i] == '0'
  {
    if n == 0 then [] else Zeros(n - 1) + ['0']
  }

  lemma {:induction false} LeadingZerosValue(z: nat, s: string)
    requires AllDigits(s)
    ensures AllDigits(Zeros(z) + s) && DigitsValue(Zeros(z) + s) == DigitsValue(s)
    decreases |s|
  {
    var t := Zeros(z) + s;
    if s == [] {
      assert t == Zeros(z);
      ZerosValue(z);
    } else {
      LeadingZerosValue(z, s[..|s| - 1]);
      assert t[..|t| - 1] == Zeros(z) + s[..|s| - 1];
    }
  }

  lemma {:induction false} ZerosValue(z: nat)
    ensures DigitsValue(Zeros(z)) == 0
  {
    if z > 0 {
      ZerosValue(z - 1);
      assert Zeros(z)[..z - 1] == Zeros(z - 1);
    }
  }

  /** Python's `f"{n:0{w}d}"`: `n` in decimal, left-padded with zeros to `w` digits. */
  function ZeroPad(n: nat, w: nat): (r: string)
    ensures |r| == if |NatToString(n)| < w then w else |NatToString(n)|
    ensures AllDigits(r)
    ensures DigitsValue(r) == n
  {
    var s := NatToString(n);
    NatToStringValue(n);
    if |s| < w then
      LeadingZerosValue(w - |s|, s);
      Zeros(w - |s|) + s
    else s
  }

  // ---------------------------------------------------------------------
  // Decimal literals
  // ---------------------------------------------------------------------

  /** Value of the literal `ip.fp` with the given digit strings. */
  function FixedValue(ip: string, fp: string): real
    requires AllDigits(ip) && AllDigits(fp)
  {
    DigitsValue(ip) as real + DigitsValue(fp) as real / Pow10(|fp|) as real
  }

  /**
   * Python's `Decimal(s)` on plain literals: an optional sign, digits and at
   * most one decimal point with at least one digit. `None` where `Decimal`
   * raises.
   */
  function ParseDecimal(s: string): (r: Option<real>)
    ensures r.Some? ==> s != [] && forall i :: 0 <= i < |s| ==> IsDigit(s[i]) || s[i] in "+-."
  {
    var signed := |s| > 0 && (s[0] == '-' || s[0] == '+');
    var body := if signed then s[1..] else s;
    match UnsignedDecimal(body)
    case None => None
    case Some(x) =>
      assert signed ==> s == [s[0]] + body;
      Some(if |s| > 0 && s[0] == '-' then -x else x)
  }

  /** The value of an unsigned literal: digits around at most one decimal point, at least one digit. */
  function UnsignedDecimal(body: string): (r: Option<real>)
    ensures r.Some? ==> body != [] && forall i :: 0 <= i < |body| ==> IsDigit(body[i]) || body[i] == '.'
  {
    if '.' in body then
      var i := IndexOf(body, '.');
      var ip, fp := body[..i], body[i + 1..];
      if AllDigits(ip) && AllDigits(fp) && |ip| + |fp| > 0 then
        assert body == ip + ['.'] + fp;
        Some(FixedValue(ip, fp))
      else None
    else if IsDigits(body) then Some(DigitsValue(body) as real)
    else None
  }

  /** Python's `int(s)` on a stripped literal: an optional sign and at least one digit. */
  function SignedInt(s: string): (r: Option<int>)
    ensures r.Some? ==> |s| > 0
    ensures IsDigits(s) ==> r == Some(DigitsValue(s) as int)
  {
    if IsDigits(s) then Some(DigitsValue(s) as int)
    else if |s| > 1 && s[0] == '-' && IsDigits(s[1..]) then Some(-(DigitsValue(s[1..]) as int))
    else if |s| > 1 && s[0] == '+' && IsDigits(s[1..]) then Some(DigitsValue(s[1..]) as int)
    else None
  }

  /** The position of the first exponent mark `e` or `E`. */
  function ExponentMark(s: string): (r: Option<nat>)
    ensures r.Some? ==> r.value < |s| && s[r.value] in "eE"
    ensures r.None? <==> 'e' !in s && 'E' !in s
  {
    if s == [] then None
    else if s[0] in "eE" then Some(0)
    else match ExponentMark(s[1..])
      case None => None
      case Some(i) => Some(i + 1)
  }

  /** `m` times ten to the power `e`. */
  function Scaled(m: real, e: int): real {
    if e >= 0 then m * Pow10(e) as real else m / Pow10(-e) as real
  }

  /**
   * Python's `decimal.Decimal(s)` on finite values, as a DecimalField reads
   * a lookup value: the surrounding whitespace is stripped and every
   * underscore dropped, and what remains is a sign, digits with at most one
   * point and an optional exponent `e` or `E` with its own sign. The
   * infinities and NaNs, which the field refuses, and everything else read
   * as `None`.
   */
  function DecimalText(s: string): (r: Option<real>)
    ensures ParseDecimal(s).Some? ==> r == ParseDecimal(s)
  {
    var t := RemoveChar(Strip(s), '_');
    PlainLiteralKept(s);
    match ExponentMark(t)
    case None => ParseDecimal(t)
    case Some(i) =>
      match (ParseDecimal(t[..i]), SignedInt(t[i + 1..]))
      case (Some(m), Some(e)) => Some(Scaled(m, e))
      case _ => None
  }

  /** A plain literal has no whitespace, underscore or exponent for `DecimalText` to take off. */
  lemma PlainLiteralKept(s: string)
    ensures ParseDecimal(s).Some? ==> RemoveChar(Strip(s), '_') == s && 'e' !in s && 'E' !in s
  {
    if ParseDecimal(s).Some? {
      LiteralCharsKept(s);
      RemoveCharAbsent(s, '_');
    }
  }

  lemma LiteralCharsKept(s: string)
    requires s != [] && forall i :: 0 <= i < |s| ==> IsDigit(s[i]) || s[i] in "+-."
    ensures Strip(s) == s && '_' !in s && 'e' !in s && 'E' !in s
  {
    forall i | 0 <= i < |s|
      ensures s[i] != '_' && s[i] != 'e' && s[i] != 'E' && !IsSpace(s[i])
    {
      assert IsDigit(s[i]) || s[i] in "+-.";
    }
    StripPlain(s);
  }

  /** Whitespace around a value does not change it. */
  lemma DecimalTextStripped(s: string)
    ensures DecimalText(s) == DecimalText(Strip(s))
  {
    StripIdempotent(s);
  }

  /** With an exponent mark, `DecimalText` scales the mantissa by the exponent. */
  lemma DecimalTextMarked(s: string, t: string, i: nat, x: real, e: int)
    requires RemoveChar(Strip(s), '_') == t && ExponentMark(t) == Some(i)
    requires ParseDecimal(t[..i]) == Some(x) && SignedInt(t[i + 1..]) == Some(e)
    ensures DecimalText(s) == Some(Scaled(x, e))
  {
  }

  /** A plain literal with an exponent reads as its value scaled by that power of ten. */
  lemma DecimalTextExponent(m: string, x: real, k: nat)
    requires ParseDecimal(m) == Some(x)
    ensures DecimalText(m + "e" + NatToString(k)) == Some(x * Pow10(k) as real)
  {
    var d := NatToString(k);
    var s := m + "e" + d;
    ExponentLiteralKept(m, d);
    PlainLiteralKept(m);
    ExponentAt(m, d);
    MarkSplit(m, d);
    assert SignedInt(d) == Some(k as int) by { NatToStringValue(k); }
    DecimalTextMarked(s, s, |m|, x, k);
    ScaledUp(x, k);
  }

  /** The text around the mark after `m` is `m` and what follows. */
  lemma MarkSplit(m: string, d: string)
    ensures (m + "e" + d)[..|m|] == m && (m + "e" + d)[|m| + 1..] == d
  {
  }

  lemma ScaledUp(x: real, k: nat)
    ensures Scaled(x, k) == x * Pow10(k) as real
  {
  }

  lemma ExponentLiteralKept(m: string, d: string)
    requires ParseDecimal(m).Some? && IsDigits(d)
    ensures RemoveChar(Strip(m + "e" + d), '_') == m + "e" + d
  {
    var s := m + "e" + d;
    assert '_' !in s && !IsSpace(s[0]) && !IsSpace(s[|s| - 1]) by {
      ExponentLiteralChars(m, d);
    }
    StripPlain(s);
    RemoveCharAbsent(s, '_');
  }

  lemma ExponentLiteralChars(m: string, d: string)
    requires ParseDecimal(m).Some? && IsDigits(d)
    ensures forall i :: 0 <= i < |m + "e" + d| ==> (m + "e" + d)[i] != '_' && !IsSpace((m + "e" + d)[i])
  {
    var s := m + "e" + d;
    forall i | 0 <= i < |s|
      ensures s[i] != '_' && !IsSpace(s[i])
    {
      if i < |m| {
        assert s[i] == m[i];
        assert IsDigit(m[i]) || m[i] in "+-.";
      } else if i > |m| {
        assert s[i] == d[i - |m| - 1];
      }
    }
  }


  /** The exponent mark after a string without one is its first. */
  lemma {:induction false} ExponentAt(m: string, d: string)
    requires 'e' !in m && 'E' !in m
    ensures ExponentMark(m + "e" + d) == Some(|m|)
  {
    if m != [] {
      assert (m + "e" + d)[1..] == m[1..] + "e" + d;
      ExponentAt(m[1..], d);
    }
  }

  /** Without an exponent mark, `DecimalText` reads the cleaned text as a plain literal. */
  lemma DecimalTextPlain(s: string, t: string)
    requires RemoveChar(Strip(s), '_') == t && 'e' !in t && 'E' !in t
    ensures DecimalText(s) == ParseDecimal(t)
  {
  }

  /** A string of digits reads as its decimal value. */
  lemma ParseDigits(t: string)
    requires IsDigits(t)
    ensures ParseDecimal(t) == Some(DigitsValue(t) as real)
  {
    assert '.' !in t by {
      forall i | 0 <= i < |t| ensures t[i] != '.' { assert IsDigit(t[i]); }
    }
  }

  /**
   * `Decimal()` drops every underscore, wherever it stands: `1_000`, `_5`,
   * `5_` and `5._0` read as `1000`, `5`, `5` and `5.0`.
   */
  lemma DecimalTextUnderscores(s: string)
    requires ParseDecimal(RemoveChar(s, '_')).Some?
    ensures DecimalText(s) == ParseDecimal(RemoveChar(s, '_'))
  {
    var t := RemoveChar(s, '_');
    LiteralCharsKept(t);
    UnderscoredPlain(s, t);
    DecimalTextPlain(s, t);
  }

  /** A literal with underscores added anywhere still has no whitespace to strip. */
  lemma UnderscoredPlain(s: string, t: string)
    requires t == RemoveChar(s, '_') && t != []
    requires forall j :: 0 <= j < |t| ==> IsDigit(t[j]) || t[j] in "+-."
    ensures Strip(s) == s
  {
    assert s != [];
    forall i | 0 <= i < |s|
      ensures !IsSpace(s[i])
    {
      if s[i] != '_' {
        assert s[i] in t;
        var j :| 0 <= j < |t| && t[j] == s[i];
      }
      LiteralCharNotSpace(s[i]);
    }
    StripPlain(s);
  }

  /** No character of a literal or an underscore is whitespace. */
  lemma LiteralCharNotSpace(c: char)
    requires IsDigit(c) || c in "+-._"
    ensures !IsSpace(c)
  {
  }

  /** A string of digits reads as its decimal value. */
  lemma DecimalTextDigits(t: string)
    requires IsDigits(t)
    ensures DecimalText(t) == Some(DigitsValue(t) as real)
  {
    StripDigits(t);
    PlainLiteralKept(t);
    ParseDigits(t);
  }

  /**
   * A value that starts with anything but a digit, a sign, a point or an
   * underscore reads as no number: `inf`, `Infinity`, `nan` and `sNaN`
   * among them.
   */
  lemma DecimalTextNonNumeric(s: string)
    requires Strip(s) != [] && !IsDigit(Strip(s)[0]) && Strip(s)[0] !in "+-._"
    ensures DecimalText(s) == None
  {
    var u := RemoveChar(Strip(s), '_');
    RemoveCharHead(Strip(s), '_');
    match ExponentMark(u)
    case None =>
      assert ParseDecimal(u).None?;
    case Some(i) =>
      if i > 0 {
        assert u[..i][0] == u[0];
      }
      assert ParseDecimal(u[..i]).None?;
  }

  lemma ParseNatLiteral(n: nat)
    ensures ParseDecimal(NatToString(n)) == Some(n as real)
  {
    NatToStringValue(n);
  }

  /** An unsigned literal that starts with a digit reads as its value. */
  lemma UnsignedValue(body: string, x: real)
    requires UnsignedDecimal(body) == Some(x) && IsDigit(body[0])
    ensures ParseDecimal(body) == Some(x)
  {
  }

  /** Reading the comma of `<p>,<f>` as the point gives `<p>.<f>`. */
  lemma CommaAsPoint(p: string, f: string)
    requires ',' !in p && AllDigits(f)
    ensures ReplaceChar(p + "," + f, ',', '.') == p + "." + f
  {
    var s := p + "," + f;
    assert forall i :: 0 <= i < |p| ==> s[i] == p[i];
    assert forall i :: 0 <= i < |f| ==> s[|p| + 1 + i] == f[i];
  }

  /** The literal `<n>.<f>` reads as a number from `n` up to, not including, `n + 1`. */
  lemma FractionValue(n: nat, f: string) returns (x: real)
    requires AllDigits(f)
    ensures UnsignedDecimal(NatToString(n) + "." + f) == Some(x)
    ensures n as real <= x < n as real + 1.0
  {
    var d := NatToString(n);
    PointLiteral(d, f);
    x := FixedValue(d, f);
    NatToStringValue(n);
    DigitsValueBelow(f);
    ProperFraction(DigitsValue(f), Pow10(|f|));
  }

  /** Digits, a point and digits read as the fixed-point value they spell. */
  lemma PointLiteral(d: string, f: string)
    requires IsDigits(d) && AllDigits(f)
    ensures UnsignedDecimal(d + "." + f) == Some(FixedValue(d, f))
  {
    var body := d + "." + f;
    assert '.' !in d;
    assert body[|d|] == '.' && body[..|d|] == d && body[|d| + 1..] == f;
  }

  lemma ProperFraction(a: nat, b: nat)
    requires a < b
    ensures 0.0 <= a as real / b as real < 1.0
  {
    var q := a as real / b as real;
    assert q * b as real == a as real;
  }

  /** Python's `int(x)` on a real: truncation toward zero. */
  function Trunc(x: real): (r: int)
    ensures x >= 0.0 ==> 0.0 <= r as real <= x < r as real + 1.0
    ensures x < 0.0 ==> r as real - 1.0 < x <= r as real <= 0.0
  {
    if x >= 0.0 then x.Floor else -((-x).Floor)
  }

  /** A real from `n` up to, not including, `n + 1` truncates to `n`, and its negation to `-n`. */
  lemma TruncBetween(x: real, n: nat)
    requires n as real <= x < n as real + 1.0
    ensures Trunc(x) == n && Trunc(-x) == -(n as int)
  {
    var r, q, m := Trunc(x), Trunc(-x), n as int;
    assert r as real <= x < r as real + 1.0;
    assert r < m + 1 && m < r + 1;
    if x != 0.0 {
      assert q as real - 1.0 < -x <= q as real;
      assert q < 1 - m && -m - 1 < q;
    }
  }

  // ---------------------------------------------------------------------
  // Paths
  // ---------------------------------------------------------------------

  /** Python's `os.path.basename(p)` on POSIX paths. */
  function Basename(p: string): (r: string)
    ensures '/' !in r
    ensures '/' !in p ==> r == p
  {
    p[LastIndexOf(p, '/') + 1..]
  }

  /**
   * The extension part of Python's `os.path.splitext(p)` on POSIX paths:
   * from the last dot of the last path component, unless that component
   * consists of dots up to there (`.bashrc` has no extension).
   */
  function SplitExt(p: string): (ext: string)
    ensures ext == [] || (ext[0] == '.' && '.' !in ext[1..] && '/' !in ext)
    ensures |ext| <= |p| && ext == p[|p| - |ext|..]
  {
    var sepIndex := LastIndexOf(p, '/');
    var dotIndex := LastIndexOf(p, '.');
    if dotIndex > sepIndex && !OnlyDots(p[sepIndex + 1..dotIndex]) then
      ExtensionFromLastDot(p, sepIndex, dotIndex);
      p[dotIndex..]
    else []
  }

  /** The text from the last dot, when it follows the last slash, is an extension without a slash. */
  lemma ExtensionFromLastDot(p: string, sepIndex: int, dotIndex: int)
    requires -1 <= sepIndex < dotIndex < |p|
    requires p[dotIndex] == '.' && '.' !in p[dotIndex + 1..]
    requires sepIndex >= 0 ==> '/' !in p[sepIndex + 1..]
    requires sepIndex == -1 ==> '/' !in p
    ensures p[dotIndex..][0] == '.' && '.' !in p[dotIndex..][1..] && '/' !in p[dotIndex..]
  {
    assert p[dotIndex..][1..] == p[dotIndex + 1..];
    assert p[sepIndex + 1..][dotIndex - sepIndex - 1..] == p[dotIndex..];
  }

  predicate OnlyDots(s: string) {
    forall i :: 0 <= i < |s| ==> s[i] == '.'
  }

  /** `PurePosixPath(p).suffix` for a file name: from its last dot, if that dot is neither first nor last. */
  function PathSuffix(name: string): (ext: string)
    ensures ext == [] || (|ext| >= 2 && ext[0] == '.' && '.' !in ext[1..])
  {
    var i := LastIndexOf(name, '.');
    if 0 < i < |name| - 1 then name[i..] else []
  }
}
