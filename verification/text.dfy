/** String primitives shared by the backend (Python) and the front end (TypeScript):
    whitespace stripping, ASCII lower-casing, substring search, joining and the decimal
    rendering of integers. */
module Text {

  /** The ASCII whitespace characters that both Python's `str.strip` and JavaScript's
      `String.prototype.trim` remove: space, tab, line feed, carriage return,
      vertical tab and form feed. Python also strips the ASCII separators `\x1c` to
      `\x1f`, which `trim` keeps; they are not whitespace here. */
  predicate IsSpace(c: char) {
    c == ' ' || c == '\t' || c == '\n' || c == '\r' || c == '\U{0B}' || c == '\U{0C}'
  }

  predicate AllSpace(s: string) {
    forall i :: 0 <= i < |s| ==> IsSpace(s[i])
  }

  /** Position of the first non-whitespace character of `s` at or after `i`, or `|s|`
      when there is none: where `lstrip` stops. */
  function SkipSpace(s: string, i: nat): (j: nat)
    requires i <= |s|
    ensures i <= j <= |s|
    ensures forall k :: i <= k < j ==> IsSpace(s[k])
    ensures j < |s| ==> !IsSpace(s[j])
    decreases |s| - i
  {
    if i == |s| || !IsSpace(s[i]) then i else SkipSpace(s, i + 1)
  }

  /** Position just past the last non-whitespace character of `s[lo..j]`, or `lo` when
      there is none: where `rstrip` stops. */
  function SkipSpaceBack(s: string, lo: nat, j: nat): (i: nat)
    requires lo <= j <= |s|
    ensures lo <= i <= j
    ensures forall k :: i <= k < j ==> IsSpace(s[k])
    ensures lo < i ==> !IsSpace(s[i - 1])
    decreases j
  {
    if j == lo || !IsSpace(s[j - 1]) then j else SkipSpaceBack(s, lo, j - 1)
  }

  /** Number of leading whitespace characters that `Strip` removes. */
  function StripOffset(s: string): nat {
    SkipSpace(s, 0)
  }

  /** Python `s.strip()` / JavaScript `s.trim()`: the infix of `s` left after removing
      whitespace at both ends. */
  function Strip(s: string): (r: string)
    ensures StripOffset(s) + |r| <= |s|
    ensures r == s[StripOffset(s)..StripOffset(s) + |r|]
    ensures AllSpace(s[..StripOffset(s)]) && AllSpace(s[StripOffset(s) + |r|..])
    ensures r != [] ==> !IsSpace(r[0]) && !IsSpace(r[|r| - 1])
    ensures r == [] <==> AllSpace(s)
  {
    var o := SkipSpace(s, 0);
    var e := SkipSpaceBack(s, o, |s|);
    assert forall k :: 0 <= k < o ==> s[..o][k] == s[k];
    assert forall k :: 0 <= k < |s| - e ==> s[e..][k] == s[e + k];
    assert e == o ==> forall k :: 0 <= k < |s| ==> IsSpace(s[k]);
    s[o..e]
  }

  /** Stripping a string that has no whitespace at either end changes nothing. */
  lemma StripNoOp(s: string)
    requires s != [] ==> !IsSpace(s[0]) && !IsSpace(s[|s| - 1])
    ensures Strip(s) == s
  {
    assert SkipSpace(s, 0) == 0;
    assert SkipSpaceBack(s, 0, |s|) == |s|;
  }

  function LowerChar(c: char): char {
    if 'A' <= c <= 'Z' then (c as int + 32) as char else c
  }

  /** ASCII lower-casing, the part of Python's `str.lower` and JavaScript's `toLowerCase`
      this model covers. */
  function Lower(s: string): (r: string)
    ensures |r| == |s|
    ensures forall i :: 0 <= i < |s| ==> r[i] == LowerChar(s[i])
  {
    seq(|s|, i requires 0 <= i < |s| => LowerChar(s[i]))
  }

  /** Lower-casing commutes with taking a slice. */
  lemma LowerSlice(s: string, i: int, j: int)
    requires 0 <= i <= j <= |s|
    ensures Lower(s)[i..j] == Lower(s[i..j])
  {
  }

  /** `p` occurs in `s` starting at index `i`. */
  predicate OccursAt(p: string, s: string, i: int) {
    0 <= i && i + |p| <= |s| && s[i..i + |p|] == p
  }

  /** Python's `p in s` on strings (JavaScript's `s.includes(p)`): tries every start
      position from the left. */
  function Occurs(p: string, s: string): bool
    decreases |s|
  {
    if |p| > |s| then false
    else if s[..|p|] == p then true
    else Occurs(p, s[1..])
  }

  /** The search finds `p` exactly when some window of `s` equals `p`. */
  lemma {:induction false} OccursIff(p: string, s: string)
    ensures Occurs(p, s) <==> exists i :: OccursAt(p, s, i)
    decreases |s|
  {
    if |p| > |s| {
    } else if s[..|p|] == p {
      assert OccursAt(p, s, 0);
    } else {
      OccursIff(p, s[1..]);
      if Occurs(p, s[1..]) {
        var i :| OccursAt(p, s[1..], i);
        assert s[1..][i..i + |p|] == s[i + 1..i + 1 + |p|];
        assert OccursAt(p, s, i + 1);
      }
      if exists i :: OccursAt(p, s, i) {
        var i :| OccursAt(p, s, i);
        assert i != 0;
        assert s[1..][i - 1..i - 1 + |p|] == s[i..i + |p|];
        assert OccursAt(p, s[1..], i - 1);
      }
    }
  }

  /** Sum of the lengths of `xs`. */
  function TotalLength(xs: seq<string>): nat {
    if xs == [] then 0 else |xs[0]| + TotalLength(xs[1..])
  }

  /** Python `sep.join(xs)` / JavaScript `xs.join(sep)`. */
  function Join(sep: string, xs: seq<string>): string {
    if |xs| == 0 then ""
    else if |xs| == 1 then xs[0]
    else xs[0] + sep + Join(sep, xs[1..])
  }

  /** A joined string is as long as its parts plus one separator between neighbours. */
  lemma {:induction false} JoinLength(sep: string, xs: seq<string>)
    requires xs != []
    ensures |Join(sep, xs)| == TotalLength(xs) + (|xs| - 1) * |sep|
  {
    if |xs| > 1 {
      JoinLength(sep, xs[1..]);
    }
  }

  /** Joining with a single space is all whitespace exactly when every part is. */
  lemma {:induction false} JoinAllSpace(xs: seq<string>)
    ensures AllSpace(Join(" ", xs)) <==> forall k :: 0 <= k < |xs| ==> AllSpace(xs[k])
  {
    if |xs| > 1 {
      JoinAllSpace(xs[1..]);
      var j := Join(" ", xs[1..]);
      var r := xs[0] + " " + j;
      assert r[..|xs[0]|] == xs[0];
      assert r[|xs[0]| + 1..] == j;
      if AllSpace(r) {
        assert AllSpace(xs[0]) && AllSpace(j);
        forall k | 0 <= k < |xs|
          ensures AllSpace(xs[k])
        {
          if k > 0 {
            assert xs[k] == xs[1..][k - 1];
          }
        }
      }
      if forall k :: 0 <= k < |xs| ==> AllSpace(xs[k]) {
        assert forall k :: 0 <= k < |xs[1..]| ==> xs[1..][k] == xs[k + 1];
        assert AllSpace(j);
        assert AllSpace(xs[0]);
        forall i | 0 <= i < |r|
          ensures IsSpace(r[i])
        {
          if i < |xs[0]| {
            assert r[i] == xs[0][i];
          } else if i > |xs[0]| {
            assert r[i] == j[i - |xs[0]| - 1];
          }
        }
      }
    }
  }

  predicate IsDigit(c: char) {
    '0' <= c <= '9'
  }

  function DigitChar(d: nat): char
    requires d < 10
  {
    ('0' as int + d) as char
  }

  /** Decimal digits of `n`, most significant first, without leading zeros. */
  function NatToString(n: nat): (r: string)
    ensures r != []
    ensures forall i :: 0 <= i < |r| ==> IsDigit(r[i])
    ensures r[0] == '0' <==> n == 0
    ensures n == 0 ==> r == "0"
    decreases n
  {
    if n < 10 then [DigitChar(n)] else NatToString(n / 10) + [DigitChar(n % 10)]
  }

  /** The value of a string of decimal digits. */
  function ParseNat(s: string): nat
    requires forall i :: 0 <= i < |s| ==> IsDigit(s[i])
  {
    if s == [] then 0
    else
      assert IsDigit(s[|s| - 1]);
      ParseNat(s[..|s| - 1]) * 10 + (s[|s| - 1] as int - '0' as int)
  }

  /** Reading back the rendered digits gives the number. */
  lemma {:induction false} NatToStringRoundTrip(n: nat)
    ensures ParseNat(NatToString(n)) == n
    decreases n
  {
    if n >= 10 {
      NatToStringRoundTrip(n / 10);
      var s := NatToString(n);
      assert s[..|s| - 1] == NatToString(n / 10);
    }
  }

  /** Python's `str(n)` for an integer: optional minus sign followed by the digits. */
  function IntToString(n: int): (r: string)
    ensures r != [] && !AllSpace(r)
    ensures n >= 0 ==> forall i :: 0 <= i < |r| ==> IsDigit(r[i])
    ensures n < 0 ==> r[0] == '-' && forall i :: 1 <= i < |r| ==> IsDigit(r[i])
    ensures n >= 0 ==> ParseNat(r) == n
    ensures n < 0 ==> ParseNat(r[1..]) == -n
    ensures n >= 0 && |r| > 1 ==> r[0] != '0'
    ensures n < 0 ==> |r| > 1 && r[1] != '0'
  {
    if n < 0 then
      var r := "-" + NatToString(-n);
      assert !IsSpace(r[0]);
      assert r[1..] == NatToString(-n);
      NatToStringRoundTrip(-n);
      r
    else
      var r := NatToString(n);
      assert IsDigit(r[0]);
      NatToStringRoundTrip(n);
      r
  }
}
