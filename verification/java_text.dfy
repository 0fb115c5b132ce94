/**
  The few pieces of `java.lang.String` and `java.lang.Integer` behaviour the
  mappers and node renderings depend on: ASCII upper-casing, `trim`,
  `Integer.parseInt` and `Integer.toString`.
 */
module JavaText {

  datatype Option<+T> = None | Some(value: T)

  /** A Java `int`. */
  newtype Int32 = x: int | -0x8000_0000 <= x < 0x8000_0000

  // ---------------------------------------------------------------------
  // Upper-casing (ASCII letters only)
  // ---------------------------------------------------------------------

  predicate IsLowerAscii(c: char) {
    'a' <= c <= 'z'
  }

  function UpperChar(c: char): (u: char)
    ensures IsLowerAscii(c) ==> u as int == c as int - 32
    ensures !IsLowerAscii(c) ==> u == c
    ensures !IsLowerAscii(u)
    ensures (u <= ' ') == (c <= ' ')
  {
    if IsLowerAscii(c) then (c as int - 32) as char else c
  }

  /** `String.toUpperCase()` restricted to ASCII case folding. */
  function ToUpper(s: string): (u: string)
    ensures |u| == |s|
    ensures forall i :: 0 <= i < |s| ==> u[i] == UpperChar(s[i])
  {
    seq(|s|, i requires 0 <= i < |s| => UpperChar(s[i]))
  }

  lemma ToUpperIdempotent(s: string)
    ensures ToUpper(ToUpper(s)) == ToUpper(s)
  {
  }

  // ---------------------------------------------------------------------
  // trim(): removes every leading and trailing char whose code is <= ' '
  // ---------------------------------------------------------------------

  predicate IsTrimmable(c: char) {
    c <= ' '
  }

  function TrimStart(s: string): (r: string)
    ensures |r| <= |s| && r == s[|s| - |r|..]
    ensures forall i :: 0 <= i < |s| - |r| ==> IsTrimmable(s[i])
    ensures |r| > 0 ==> !IsTrimmable(r[0])
    decreases |s|
  {
    if |s| > 0 && IsTrimmable(s[0]) then TrimStart(s[1..]) else s
  }

  function TrimEnd(s: string): (r: string)
    ensures |r| <= |s| && r == s[..|r|]
    ensures forall i :: |r| <= i < |s| ==> IsTrimmable(s[i])
    ensures |r| > 0 ==> !IsTrimmable(r[|r| - 1])
    decreases |s|
  {
    if |s| > 0 && IsTrimmable(s[|s| - 1]) then TrimEnd(s[..|s| - 1]) else s
  }

  /** `String.trim()`: the longest infix of `s` that neither starts nor ends
      with a char at or below the space character. */
  function Trim(s: string): (r: string)
  {
    TrimEnd(TrimStart(s))
  }

  /** `s[i..j]` is what trimming `s` keeps: everything before `i` and from
      `j` on is trimmable, and the kept part neither starts nor ends with a
      trimmable char. */
  ghost predicate IsTrimmedInfix(s: string, i: nat, j: nat)
    requires i <= j <= |s|
  {
    && (forall k :: 0 <= k < i ==> IsTrimmable(s[k]))
    && (forall k :: j <= k < |s| ==> IsTrimmable(s[k]))
    && (i < j ==> !IsTrimmable(s[i]) && !IsTrimmable(s[j - 1]))
  }

  /** The defining property of `trim`: it returns the maximal infix whose
      ends are not trimmable. */
  lemma TrimIsMaximalInfix(s: string) returns (i: nat, j: nat)
    ensures i <= j <= |s| && Trim(s) == s[i..j] && IsTrimmedInfix(s, i, j)
  {
    var t := TrimStart(s);
    var r := TrimEnd(t);
    i := |s| - |t|;
    j := i + |r|;
    assert r == s[i..j];
    forall k | j <= k < |s|
      ensures IsTrimmable(s[k])
    {
      assert s[k] == t[k - i];
    }
    if i < j {
      assert s[i] == r[0];
      assert s[j - 1] == r[|r| - 1];
    }
  }

  lemma TrimStartOfUntrimmed(s: string)
    requires |s| == 0 || !IsTrimmable(s[0])
    ensures TrimStart(s) == s
  {
  }

  lemma TrimEndOfUntrimmed(s: string)
    requires |s| == 0 || !IsTrimmable(s[|s| - 1])
    ensures TrimEnd(s) == s
  {
  }

  lemma {:induction false} TrimIdempotent(s: string)
    ensures Trim(Trim(s)) == Trim(s)
  {
    var r := Trim(s);
    var t := TrimStart(s);
    assert r == TrimEnd(t);
    if |r| > 0 {
      assert r == t[..|r|];
      assert r[0] == t[0];
      assert !IsTrimmable(r[0]);
      TrimStartOfUntrimmed(r);
      TrimEndOfUntrimmed(r);
    }
  }

  /** Upper-casing commutes with trimming: it never turns a trimmable char
      into a kept one or the reverse. */
  lemma {:induction false} TrimStartToUpper(s: string)
    ensures TrimStart(ToUpper(s)) == ToUpper(TrimStart(s))
    decreases |s|
  {
    if |s| > 0 && IsTrimmable(s[0]) {
      assert ToUpper(s)[1..] == ToUpper(s[1..]);
      TrimStartToUpper(s[1..]);
    }
  }

  lemma {:induction false} TrimEndToUpper(s: string)
    ensures TrimEnd(ToUpper(s)) == ToUpper(TrimEnd(s))
    decreases |s|
  {
    if |s| > 0 && IsTrimmable(s[|s| - 1]) {
      assert ToUpper(s)[..|s| - 1] == ToUpper(s[..|s| - 1]);
      TrimEndToUpper(s[..|s| - 1]);
    }
  }

  predicate AllTrimmable(s: string) {
    forall i :: 0 <= i < |s| ==> IsTrimmable(s[i])
  }

  lemma {:induction false} TrimStartSkipsPrefix(pre: string, rest: string)
    requires AllTrimmable(pre)
    requires |rest| == 0 || !IsTrimmable(rest[0])
    ensures TrimStart(pre + rest) == rest
    decreases |pre|
  {
    if |pre| > 0 {
      assert (pre + rest)[1..] == pre[1..] + rest;
      TrimStartSkipsPrefix(pre[1..], rest);
    }
  }

  lemma {:induction false} TrimEndSkipsSuffix(rest: string, post: string)
    requires AllTrimmable(post)
    requires |rest| == 0 || !IsTrimmable(rest[|rest| - 1])
    ensures TrimEnd(rest + post) == rest
    decreases |post|
  {
    if |post| > 0 {
      assert (rest + post)[..|rest + post| - 1] == rest + post[..|post| - 1];
      TrimEndSkipsSuffix(rest, post[..|post| - 1]);
    }
  }

  /** A name without surrounding whitespace is only upper-cased. */
  lemma NormaliseUnpadded(core: string)
    requires |core| > 0 && !IsTrimmable(core[0]) && !IsTrimmable(core[|core| - 1])
    ensures Normalise(core) == ToUpper(core)
  {
    TrimStartOfUntrimmed(ToUpper(core));
    TrimEndOfUntrimmed(ToUpper(core));
  }

  /** Surrounding whitespace and control chars are ignored: normalising a
      padded name gives the upper-cased name. */
  lemma NormalisePadded(pre: string, core: string, post: string)
    requires AllTrimmable(pre) && AllTrimmable(post)
    requires |core| > 0 && !IsTrimmable(core[0]) && !IsTrimmable(core[|core| - 1])
    ensures Normalise(pre + core + post) == ToUpper(core)
  {
    var u := ToUpper(core);
    var whole := pre + core + post;
    assert ToUpper(whole) == pre + (u + post) by {
      assert |ToUpper(whole)| == |pre + (u + post)|;
      forall i | 0 <= i < |whole|
        ensures ToUpper(whole)[i] == (pre + (u + post))[i]
      {
        if i < |pre| {
          assert whole[i] == pre[i];
        } else if i < |pre| + |core| {
          assert whole[i] == core[i - |pre|];
        } else {
          assert whole[i] == post[i - |pre| - |core|];
        }
      }
    }
    TrimStartSkipsPrefix(pre, u + post);
    TrimEndSkipsSuffix(u, post);
  }

  /** The normalisation the JCA mappers apply: `s.toUpperCase().trim()`. */
  function Normalise(s: string): string {
    Trim(ToUpper(s))
  }

  lemma NormaliseIdempotent(s: string)
    ensures Normalise(Normalise(s)) == Normalise(s)
  {
    var u := ToUpper(s);
    var t := Trim(u);
    calc {
      Normalise(t);
      Trim(ToUpper(TrimEnd(TrimStart(u))));
      { TrimEndToUpper(TrimStart(u)); }
      Trim(TrimEnd(ToUpper(TrimStart(u))));
      { TrimStartToUpper(u); }
      Trim(TrimEnd(TrimStart(ToUpper(u))));
      { ToUpperIdempotent(s); }
      Trim(t);
      { TrimIdempotent(u); }
      t;
    }
  }

  // ---------------------------------------------------------------------
  // Decimal digits
  // ---------------------------------------------------------------------

  predicate IsDigit(c: char) {
    '0' <= c <= '9'
  }

  predicate AllDigits(s: string) {
    forall i :: 0 <= i < |s| ==> IsDigit(s[i])
  }

  function DigitChar(d: nat): (c: char)
    requires d < 10
    ensures IsDigit(c)
  {
    ('0' as int + d) as char
  }

  /** The number a run of ASCII digits denotes, most significant first. */
  function DigitsValue(s: string): nat
    requires AllDigits(s)
  {
    if |s| == 0 then 0
    else DigitsValue(s[..|s| - 1]) * 10 + (s[|s| - 1] as int - '0' as int)
  }

  /** The decimal digits of a natural number, without leading zeros. */
  function NatString(n: nat): (s: string)
    ensures |s| > 0 && AllDigits(s)
  {
    if n < 10 then [DigitChar(n)] else NatString(n / 10) + [DigitChar(n % 10)]
  }

  /** `Integer.toString(n)` / `String.valueOf(n)`. */
  function DecimalString(n: int): string {
    if n < 0 then "-" + NatString(-n) else NatString(n)
  }

  lemma {:induction false} NatStringValue(n: nat)
    ensures DigitsValue(NatString(n)) == n
  {
    if n >= 10 {
      var s := NatString(n);
      assert s[..|s| - 1] == NatString(n / 10);
      NatStringValue(n / 10);
    }
  }

  // ---------------------------------------------------------------------
  // Integer.parseInt
  // ---------------------------------------------------------------------

  predicate InInt32Range(n: int) {
    -0x8000_0000 <= n < 0x8000_0000
  }

  /** `Integer.parseInt(s)`: an optional '+' or '-' followed by at least one
      digit, whose value must fit a Java `int`; `None` stands for the
      `NumberFormatException` the method throws otherwise. */
  function ParseInt(s: string): (r: Option<Int32>)
    ensures r.Some? ==> |s| > 0
    ensures r.Some? && s[0] == '-' ==> r.value <= 0
  {
    if |s| == 0 then None
    else
      var negative := s[0] == '-';
      var digits := if s[0] == '-' || s[0] == '+' then s[1..] else s;
      if |digits| == 0 || !AllDigits(digits) then None
      else
        var magnitude: int := DigitsValue(digits);
        var n: int := if negative then -magnitude else magnitude;
        if InInt32Range(n) then Some(n as Int32) else None
  }

  /** `parseInt` inverts `toString` on every Java `int`. */
  lemma ParseIntOfDecimalString(n: Int32)
    ensures ParseInt(DecimalString(n as int)) == Some(n)
  {
    if n < 0 {
      var s := DecimalString(n as int);
      assert s[1..] == NatString(-(n as int));
      NatStringValue(-(n as int));
    } else {
      var s := NatString(n as int);
      assert IsDigit(s[0]);
      NatStringValue(n as int);
    }
  }

  /** A decimal outside the range of a Java `int` is rejected, not wrapped. */
  lemma ParseIntRejectsOutOfRange(n: int)
    requires !InInt32Range(n)
    ensures ParseInt(DecimalString(n)) == None
  {
    if n < 0 {
      var s := DecimalString(n);
      assert s[1..] == NatString(-n);
      NatStringValue(-n);
    } else {
      var s := NatString(n);
      assert IsDigit(s[0]);
      NatStringValue(n);
    }
  }

  /** A string whose first char is neither a sign nor a digit never parses. */
  lemma ParseIntNeedsSignOrDigit(s: string)
    requires |s| > 0 && s[0] != '-' && s[0] != '+' && !IsDigit(s[0])
    ensures ParseInt(s) == None
  {
  }
}
