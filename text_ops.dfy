/**
 * Character and string helpers shared by the model: the substring test that
 * `std::string::find(...) != npos` performs, ASCII `toupper`, the C `isspace`
 * class, whitespace erasure with `std::remove_if(..., ::isspace)`, decimal
 * rendering of `%lu`, and the leading-integer conversion of `std::stoi`.
 */
module TextOps {

  datatype Option<T> = None | Some(value: T)

  lemma AppendAssoc<T>(a: seq<T>, b: seq<T>, c: seq<T>)
    ensures (a + b) + c == a + (b + c)
  {
  }

  /** `sub` occurs in `s` at index `i`. */
  predicate OccursAt(s: string, sub: string, i: nat)
  {
    i + |sub| <= |s| && s[i..i + |sub|] == sub
  }

  /** `s.find(sub) != std::string::npos`. */
  predicate Contains(s: string, sub: string)
    decreases |s|
  {
    if |sub| > |s| then false
    else s[..|sub|] == sub || (|s| > 0 && Contains(s[1..], sub))
  }

  lemma {:induction false} ContainsIff(s: string, sub: string)
    ensures Contains(s, sub) <==> exists i: nat :: OccursAt(s, sub, i)
    decreases |s|
  {
    if |sub| > |s| {
      forall i: nat ensures !OccursAt(s, sub, i) { }
    } else if s[..|sub|] == sub {
      assert OccursAt(s, sub, 0);
    } else {
      ContainsIff(s[1..], sub);
      if Contains(s[1..], sub) {
        var i: nat :| OccursAt(s[1..], sub, i);
        assert s[i + 1..i + 1 + |sub|] == s[1..][i..i + |sub|];
        assert OccursAt(s, sub, i + 1);
      } else {
        forall i: nat | OccursAt(s, sub, i) ensures false {
          if i == 0 {
          } else {
            assert s[1..][i - 1..i - 1 + |sub|] == s[i..i + |sub|];
            assert OccursAt(s[1..], sub, i - 1);
          }
        }
      }
    }
  }

  /** A witness position proves containment. */
  lemma ContainsAt(s: string, sub: string, i: nat)
    requires OccursAt(s, sub, i)
    ensures Contains(s, sub)
  {
    ContainsIff(s, sub);
  }

  /** Containment is kept when text is added on either side. */
  lemma ContainsExtend(pre: string, s: string, post: string, sub: string)
    requires Contains(s, sub)
    ensures Contains(pre + s + post, sub)
  {
    ContainsIff(s, sub);
    var i: nat :| OccursAt(s, sub, i);
    assert (pre + s + post)[|pre| + i..|pre| + i + |sub|] == s[i..i + |sub|];
    ContainsAt(pre + s + post, sub, |pre| + i);
  }

  lemma ContainsSelf(s: string)
    ensures Contains(s, s)
  {
    ContainsAt(s, s, 0);
  }

  /** Appending text on the right keeps an occurrence. */
  lemma ContainsLeft(s: string, t: string, sub: string)
    requires Contains(s, sub)
    ensures Contains(s + t, sub)
  {
    ContainsIff(s, sub);
    var i: nat :| OccursAt(s, sub, i);
    assert (s + t)[i..i + |sub|] == s[i..i + |sub|];
    ContainsAt(s + t, sub, i);
  }

  /** Prepending text on the left keeps an occurrence. */
  lemma ContainsRight(s: string, t: string, sub: string)
    requires Contains(t, sub)
    ensures Contains(s + t, sub)
  {
    ContainsIff(t, sub);
    var i: nat :| OccursAt(t, sub, i);
    assert (s + t)[|s| + i..|s| + i + |sub|] == t[i..i + |sub|];
    ContainsAt(s + t, sub, |s| + i);
  }

  /** Containment of a text implies containment of each of its prefixes. */
  lemma ContainsPrefix(s: string, sub: string, p: nat)
    requires p <= |sub| && Contains(s, sub)
    ensures Contains(s, sub[..p])
  {
    ContainsIff(s, sub);
    var i: nat :| OccursAt(s, sub, i);
    assert s[i..i + p] == sub[..p];
    ContainsAt(s, sub[..p], i);
  }

  /**
   * A text does not contain `sub` when no window of it agrees with `sub` at
   * the two chosen offsets `p` and `q` (which may coincide).
   */
  lemma NotContainsPick(s: string, sub: string, p: nat, q: nat)
    requires p <= q < |sub|
    requires forall j :: p <= j && j - p + |sub| <= |s| ==> s[j] != sub[p] || s[j + (q - p)] != sub[q]
    ensures !Contains(s, sub)
  {
    ContainsIff(s, sub);
    forall i: nat
      ensures !OccursAt(s, sub, i)
    {
      if i + |sub| <= |s| {
        var window := s[i..i + |sub|];
        assert window[p] == s[i + p] && window[q] == s[i + p + (q - p)];
      }
    }
  }

  /** C `toupper` in the "C" locale: only 'a'..'z' change. */
  function UpperChar(c: char): (u: char)
    ensures 'a' <= c <= 'z' ==> u as int == c as int - 32
    ensures !('a' <= c <= 'z') ==> u == c
  {
    if 'a' <= c <= 'z' then (c as int - 32) as char else c
  }

  /** `std::transform(s.begin(), s.end(), s.begin(), ::toupper)` on a copy. */
  function UpperAscii(s: string): (u: string)
    ensures |u| == |s|
    ensures forall i :: 0 <= i < |s| ==> u[i] == UpperChar(s[i])
  {
    seq(|s|, i requires 0 <= i < |s| => UpperChar(s[i]))
  }

  lemma UpperAsciiIdempotent(s: string)
    ensures UpperAscii(UpperAscii(s)) == UpperAscii(s)
  {
  }

  /** The C `isspace` class: space, \t, \n, \v, \f, \r. */
  predicate IsCSpace(c: char)
  {
    c == ' ' || ('\t' <= c <= '\r')
  }

  /** `s.erase(std::remove_if(s.begin(), s.end(), ::isspace), s.end())`. */
  function StripSpaces(s: string): (r: string)
    ensures forall i :: 0 <= i < |r| ==> !IsCSpace(r[i])
    ensures |r| <= |s|
  {
    if s == [] then []
    else if IsCSpace(s[0]) then StripSpaces(s[1..])
    else [s[0]] + StripSpaces(s[1..])
  }

  /** Removing whitespace leaves nothing exactly when the text is blank. */
  lemma {:induction false} StripSpacesEmpty(s: string)
    ensures StripSpaces(s) == [] <==> forall i :: 0 <= i < |s| ==> IsCSpace(s[i])
  {
    if s != [] {
      StripSpacesEmpty(s[1..]);
      if IsCSpace(s[0]) {
        assert forall i :: 1 <= i < |s| ==> s[i] == s[1..][i - 1];
      }
    }
  }

  lemma {:induction false} StripSpacesAppend(a: string, b: string)
    ensures StripSpaces(a + b) == StripSpaces(a) + StripSpaces(b)
    decreases |a|
  {
    if a == [] {
      assert a + b == b;
    } else {
      assert (a + b)[0] == a[0];
      assert (a + b)[1..] == a[1..] + b;
      StripSpacesAppend(a[1..], b);
    }
  }

  /** The erase-remove idiom as a loop: keep every character that is not whitespace. */
  method EraseSpaces(s: string) returns (r: string)
    ensures r == StripSpaces(s)
  {
    r := [];
    var i := 0;
    while i < |s|
      invariant 0 <= i <= |s|
      invariant r == StripSpaces(s[..i])
    {
      StripSpacesAppend(s[..i], [s[i]]);
      assert s[..i + 1] == s[..i] + [s[i]];
      if !IsCSpace(s[i]) {
        r := r + [s[i]];
      }
      i := i + 1;
    }
    assert s[..i] == s;
  }

  predicate IsDigit(c: char)
  {
    '0' <= c <= '9'
  }

  predicate AllDigits(s: string)
  {
    forall i :: 0 <= i < |s| ==> IsDigit(s[i])
  }

  /** Every sub-range of a digit run is a digit run. */
  lemma AllDigitsWithin(s: string, a: nat, b: nat, c: nat, d: nat)
    requires a <= c <= d <= b <= |s| && AllDigits(s[a..b])
    ensures AllDigits(s[c..d])
  {
    assert forall i :: 0 <= i < d - c ==> s[c..d][i] == s[a..b][c - a + i];
  }

  function Pow10(n: nat): (p: nat)
    ensures p >= 1
  {
    if n == 0 then 1 else 10 * Pow10(n - 1)
  }

  /** A run of `n` digits denotes a number below 10^n. */
  lemma {:induction false} DigitsValueBound(s: string)
    requires AllDigits(s)
    ensures DigitsValue(s) < Pow10(|s|)
  {
    if s != [] {
      DigitsValueBound(s[..|s| - 1]);
    }
  }

  /** The decimal value of a run of digits. */
  function DigitsValue(s: string): (v: nat)
    requires AllDigits(s)
  {
    if s == [] then 0
    else DigitsValue(s[..|s| - 1]) * 10 + (s[|s| - 1] as int - '0' as int)
  }

  /** Index of the first position at or after `i` that is not a digit. */
  function DigitRunEnd(s: string, i: nat): (k: nat)
    requires i <= |s|
    ensures i <= k <= |s|
    ensures AllDigits(s[i..k])
    ensures k < |s| ==> !IsDigit(s[k])
    decreases |s| - i
  {
    if i < |s| && IsDigit(s[i]) then
      var k := DigitRunEnd(s, i + 1);
      assert s[i..k] == [s[i]] + s[i + 1..k];
      k
    else i
  }

  /** Index of the first position at or after `i` that is not C whitespace. */
  function SkipSpaces(s: string, i: nat): (k: nat)
    requires i <= |s|
    ensures i <= k <= |s|
    ensures forall j :: i <= j < k ==> IsCSpace(s[j])
    ensures k < |s| ==> !IsCSpace(s[k])
    decreases |s| - i
  {
    if i < |s| && IsCSpace(s[i]) then SkipSpaces(s, i + 1) else i
  }

  const IntMin: int := -0x8000_0000
  const IntMax: int := 0x7FFF_FFFF

  /**
   * `std::stoi(s)`: skip leading whitespace, read an optional sign and at
   * least one digit, ignore what follows. `None` is the exception it would
   * throw: `invalid_argument` without digits, `out_of_range` outside `int`.
   */
  function Stoi(s: string): (r: Option<int>)
    ensures r.Some? ==> IntMin <= r.value <= IntMax
  {
    var j := SkipSpaces(s, 0);
    var neg := j < |s| && s[j] == '-';
    var d := if j < |s| && (s[j] == '-' || s[j] == '+') then j + 1 else j;
    var k := DigitRunEnd(s, d);
    if k == d then None
    else
      var magnitude: int := DigitsValue(s[d..k]);
      var v := if neg then -magnitude else magnitude;
      if IntMin <= v <= IntMax then Some(v) else None
  }

  /** Decimal rendering of an unsigned number (`%lu`, `std::to_string`). */
  function NatToString(n: nat): (s: string)
    ensures |s| > 0 && AllDigits(s)
  {
    if n < 10 then ['0' + n as char]
    else NatToString(n / 10) + ['0' + (n % 10) as char]
  }

  /** Decimal rendering of a signed number (`std::to_string(int)`). */
  function IntToString(n: int): (s: string)
    ensures |s| > 0
  {
    if n < 0 then "-" + NatToString(-n) else NatToString(n)
  }

  /** `n` spaces. */
  function Spaces(n: nat): (s: string)
    ensures |s| == n && forall i :: 0 <= i < n ==> s[i] == ' '
  {
    if n == 0 then "" else Spaces(n - 1) + " "
  }

  /** `std::left << std::setw(n) << s`: padded on the right, never cut. */
  function PadRight(s: string, n: nat): (r: string)
    ensures |r| == if |s| < n then n else |s|
    ensures r[..|s|] == s
  {
    s + Spaces(if |s| < n then n - |s| else 0)
  }

  /** `std::setw(n) << s` with the default right alignment. */
  function PadLeft(s: string, n: nat): (r: string)
    ensures |r| == if |s| < n then n else |s|
    ensures r[|r| - |s|..] == s
  {
    Spaces(if |s| < n then n - |s| else 0) + s
  }

  lemma {:induction false} NatToStringValue(n: nat)
    ensures DigitsValue(NatToString(n)) == n
  {
    if n >= 10 {
      NatToStringValue(n / 10);
      var s := NatToString(n);
      assert s[..|s| - 1] == NatToString(n / 10);
    }
  }

  /**
   * `a < b` for `std::string`: lexicographic on character codes, with a proper
   * prefix ordered first.
   */
  predicate LexLess(a: string, b: string)
    decreases |a|
  {
    if a == [] then b != []
    else if b == [] then false
    else if a[0] != b[0] then a[0] < b[0]
    else LexLess(a[1..], b[1..])
  }

  lemma {:induction false} LexLessIrreflexive(a: string)
    ensures !LexLess(a, a)
    decreases |a|
  {
    if a != [] { LexLessIrreflexive(a[1..]); }
  }

  lemma {:induction false} LexLessTransitive(a: string, b: string, c: string)
    requires LexLess(a, b) && LexLess(b, c)
    ensures LexLess(a, c)
    decreases |a|
  {
    if a != [] && b != [] && c != [] && a[0] == b[0] && b[0] == c[0] {
      LexLessTransitive(a[1..], b[1..], c[1..]);
    }
  }

  lemma {:induction false} LexLessTotal(a: string, b: string)
    requires a != b
    ensures LexLess(a, b) || LexLess(b, a)
    decreases |a|
  {
    if a != [] && b != [] && a[0] == b[0] {
      assert a == [a[0]] + a[1..] && b == [b[0]] + b[1..];
      LexLessTotal(a[1..], b[1..]);
    }
  }
}
