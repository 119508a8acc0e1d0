/** An optional value: JavaScript's `null`/`undefined` against a present value. */
module Options {
  datatype Option<T> = None | Some(value: T) {
    /** `x ?? default` */
    function GetOr(default: T): T {
      if Some? then value else default
    }
  }
}

/** The parts of JavaScript's string and number built-ins that the application relies on:
    white space as `\s` and `trim` see it, `toUpperCase` on ASCII, decimal printing of
    integers and `parseInt`. */
module Text {
  import opened Options

  /** White space and line terminators: the characters `\s` matches and `trim` strips. */
  predicate IsSpace(c: char) {
    c == '\t' || c == '\n' || c == '\U{000B}' || c == '\U{000C}' || c == '\r' || c == ' '
    || c == '\U{00A0}' || c == '\U{1680}' || ('\U{2000}' <= c <= '\U{200A}')
    || c == '\U{2028}' || c == '\U{2029}' || c == '\U{202F}' || c == '\U{205F}'
    || c == '\U{3000}' || c == '\U{FEFF}'
  }

  /** `\d`: an ASCII decimal digit. */
  predicate IsDigit(c: char) {
    '0' <= c <= '9'
  }

  predicate AllDigits(s: string) {
    forall i :: 0 <= i < |s| ==> IsDigit(s[i])
  }

  predicate AllSpace(s: string) {
    forall i :: 0 <= i < |s| ==> IsSpace(s[i])
  }

  /** No white space at either end. */
  predicate Trimmed(s: string) {
    s == [] || (!IsSpace(s[0]) && !IsSpace(s[|s| - 1]))
  }

  function TrimStart(s: string): (r: string)
    ensures |r| <= |s| && r == s[|s| - |r|..]
    ensures r == [] || !IsSpace(r[0])
    ensures forall i :: 0 <= i < |s| - |r| ==> IsSpace(s[i])
  {
    if s != [] && IsSpace(s[0]) then TrimStart(s[1..]) else s
  }

  function TrimEnd(s: string): (r: string)
    ensures |r| <= |s| && r == s[..|r|]
    ensures r == [] || !IsSpace(r[|r| - 1])
    ensures forall i :: |r| <= i < |s| ==> IsSpace(s[i])
  {
    if s != [] && IsSpace(s[|s| - 1]) then TrimEnd(s[..|s| - 1]) else s
  }

  /** `s.trim()`: the longest slice of `s` with white space on neither end, obtained by
      dropping only white space. */
  function Trim(s: string): (r: string)
    ensures Trimmed(r)
    ensures |r| <= |s|
    ensures r == [] <==> AllSpace(s)
    ensures Trimmed(s) ==> r == s
    ensures exists i, j :: 0 <= i <= j <= |s| && r == s[i..j] && AllSpace(s[..i]) && AllSpace(s[j..])
  {
    TrimSlice(s);
    TrimEnds(s);
    TrimEmpty(s);
    TrimKeeps(s);
    TrimEnd(TrimStart(s))
  }

  lemma TrimSlice(s: string)
    ensures exists i, j ::
      (0 <= i <= j <= |s| && TrimEnd(TrimStart(s)) == s[i..j] && AllSpace(s[..i]) && AllSpace(s[j..]))
  {
    var a := TrimStart(s);
    var b := TrimEnd(a);
    var i := |s| - |a|;
    SliceOfSuffix(s, i, |b|);
    SpacesBefore(s, i);
    SpacesAfter(a, |b|);
    assert 0 <= i <= i + |b| <= |s| && b == s[i..i + |b|] && AllSpace(s[..i]) && AllSpace(s[i + |b|..]);
  }

  lemma SliceOfSuffix(s: string, i: nat, n: nat)
    requires i + n <= |s|
    ensures s[i..][..n] == s[i..i + n] && s[i..][n..] == s[i + n..]
  {
  }

  lemma PrefixOfPrefix(s: string, n: nat, m: nat)
    requires m <= n <= |s|
    ensures s[..n][..m] == s[..m]
  {
  }

  lemma TrimEnds(s: string)
    ensures Trimmed(TrimEnd(TrimStart(s)))
  {
    var a := TrimStart(s);
    var b := TrimEnd(a);
    assert b != [] ==> b[0] == a[0];
  }

  lemma TrimEmpty(s: string)
    ensures TrimEnd(TrimStart(s)) == [] <==> AllSpace(s)
  {
    var a := TrimStart(s);
    var b := TrimEnd(a);
    if a != [] {
      assert a[0] == s[|s| - |a|] && !IsSpace(a[0]);
    } else {
      assert b == [];
      assert AllSpace(s);
    }
  }

  lemma TrimKeeps(s: string)
    ensures Trimmed(s) ==> TrimEnd(TrimStart(s)) == s
  {
    if s != [] && Trimmed(s) {
      TrimStartKeeps(s);
    }
  }

  lemma SpacesBefore(s: string, i: nat)
    requires i <= |s| && forall k :: 0 <= k < i ==> IsSpace(s[k])
    ensures AllSpace(s[..i])
  {
    forall k | 0 <= k < i ensures IsSpace(s[..i][k]) {
      assert s[..i][k] == s[k];
    }
  }

  lemma SpacesAfter(t: string, m: nat)
    requires m <= |t| && forall k :: m <= k < |t| ==> IsSpace(t[k])
    ensures AllSpace(t[m..])
  {
    forall k | 0 <= k < |t| - m ensures IsSpace(t[m..][k]) {
      assert t[m..][k] == t[m + k];
    }
  }

  /** The slice `trim` keeps is determined: any slice with white space on neither end whose
      surroundings are all white space is the trimmed text. */
  lemma TrimUnique(s: string, i: nat, j: nat)
    requires i <= j <= |s|
    requires AllSpace(s[..i]) && AllSpace(s[j..]) && Trimmed(s[i..j])
    ensures Trim(s) == s[i..j]
  {
    SpaceOutside(s, i, j);
    if i < j {
      assert s[i..j][0] == s[i] && s[i..j][j - i - 1] == s[j - 1];
      TrimBetween(s, i, j);
    } else {
      TrimStartUnique(s, |s|);
    }
  }

  lemma TrimBetween(s: string, i: nat, j: nat)
    requires i < j <= |s|
    requires forall k :: 0 <= k < i ==> IsSpace(s[k])
    requires forall k :: j <= k < |s| ==> IsSpace(s[k])
    requires !IsSpace(s[i]) && !IsSpace(s[j - 1])
    ensures TrimEnd(TrimStart(s)) == s[i..j]
  {
    TrimStartUnique(s, i);
    TrimEndBetween(s, i, j);
  }

  lemma TrimEndBetween(s: string, i: nat, j: nat)
    requires i < j <= |s|
    requires forall k :: j <= k < |s| ==> IsSpace(s[k])
    requires !IsSpace(s[j - 1])
    ensures TrimEnd(s[i..]) == s[i..j]
  {
    var a := s[i..];
    var m := j - i;
    assert a[m - 1] == s[j - 1];
    assert forall k :: m <= k < |a| ==> a[k] == s[i + k];
    TrimEndUnique(a, m);
    assert a[..m] == s[i..j];
  }

  /** `TrimStart` drops exactly the white space before the first other character. */
  lemma TrimStartUnique(s: string, i: nat)
    requires i <= |s| && (forall k :: 0 <= k < i ==> IsSpace(s[k]))
    requires i == |s| || !IsSpace(s[i])
    ensures TrimStart(s) == s[i..]
    decreases i
  {
    if i > 0 {
      TrimStartUnique(s[1..], i - 1);
      SliceOfSuffix(s, 1, i - 1);
    }
  }

  /** `TrimEnd` drops exactly the white space after the last other character. */
  lemma TrimEndUnique(a: string, j: nat)
    requires j <= |a| && (forall k :: j <= k < |a| ==> IsSpace(a[k]))
    requires j == 0 || !IsSpace(a[j - 1])
    ensures TrimEnd(a) == a[..j]
    decreases |a| - j
  {
    if j < |a| {
      TrimEndUnique(a[..|a| - 1], j);
      PrefixOfPrefix(a, |a| - 1, j);
    }
  }

  lemma SpaceOutside(s: string, i: nat, j: nat)
    requires i <= j <= |s| && AllSpace(s[..i]) && AllSpace(s[j..])
    ensures forall k :: 0 <= k < i ==> IsSpace(s[k])
    ensures forall k :: j <= k < |s| ==> IsSpace(s[k])
  {
    forall k | 0 <= k < i ensures IsSpace(s[k]) {
      assert s[..i][k] == s[k];
    }
    forall k | j <= k < |s| ensures IsSpace(s[k]) {
      assert s[j..][k - j] == s[k];
    }
  }

  /** Trimming twice is trimming once. */
  lemma TrimIdempotent(s: string)
    ensures Trim(Trim(s)) == Trim(s)
  {
  }

  function UpperChar(c: char): char {
    if 'a' <= c <= 'z' then (c as int - 32) as char else c
  }

  /** `s.toUpperCase()` on ASCII letters; every other character is left as it is. */
  function Upper(s: string): (r: string)
    ensures |r| == |s|
    ensures forall i :: 0 <= i < |s| ==> r[i] == UpperChar(s[i])
  {
    seq(|s|, i requires 0 <= i < |s| => UpperChar(s[i]))
  }

  /** Upper-casing keeps white space where it was, so it keeps a string trimmed. */
  lemma UpperKeepsTrimmed(s: string)
    requires Trimmed(s)
    ensures Trimmed(Upper(s))
  {
    if s != [] {
      assert Upper(s)[0] == UpperChar(s[0]);
      assert Upper(s)[|s| - 1] == UpperChar(s[|s| - 1]);
    }
  }

  function DigitValue(c: char): nat
    requires IsDigit(c)
  {
    c as int - '0' as int
  }

  function DigitChar(d: nat): (c: char)
    requires d < 10
    ensures IsDigit(c) && DigitValue(c) == d
  {
    ('0' as int + d) as char
  }

  /** The value of a string of decimal digits, most significant first. */
  function DigitsValue(s: string): nat
    requires AllDigits(s)
  {
    if s == [] then 0 else 10 * DigitsValue(s[..|s| - 1]) + DigitValue(s[|s| - 1])
  }

  /** A leading zero adds nothing to a digit string's value. */
  lemma DigitsValueLeadingZero(s: string)
    requires AllDigits(s)
    ensures DigitsValue("0" + s) == DigitsValue(s)
  {
    if s != [] {
      var t := "0" + s;
      assert t[..|t| - 1] == "0" + s[..|s| - 1];
      DigitsValueLeadingZero(s[..|s| - 1]);
    }
  }

  /** `String(n)` for a non-negative integer: its decimal digits, without leading zeros. */
  function NatToString(n: nat): (r: string)
    ensures |r| >= 1 && AllDigits(r)
    ensures DigitsValue(r) == n
    ensures r[0] == '0' ==> n == 0
  {
    if n < 10 then [DigitChar(n)]
    else
      var r := NatToString(n / 10) + [DigitChar(n % 10)];
      assert r[..|r| - 1] == NatToString(n / 10);
      r
  }

  /** One digit below ten, two up to 99, three or more from 100 on. */
  lemma NatToStringLength(n: nat)
    ensures n < 10 ==> |NatToString(n)| == 1
    ensures 10 <= n < 100 ==> |NatToString(n)| == 2
    ensures n >= 100 ==> |NatToString(n)| >= 3
  {
    if n >= 10 {
      NatToStringLength(n / 10);
    }
  }

  /** `String(n)` for an integer. */
  function IntToString(n: int): (r: string)
    ensures |r| >= 1 && (r[0] == '-' <==> n < 0)
    ensures n >= 0 ==> AllDigits(r) && DigitsValue(r) == n
    ensures n < 0 ==> AllDigits(r[1..]) && DigitsValue(r[1..]) == -n
  {
    if n < 0 then "-" + NatToString(-n) else NatToString(n)
  }

  /** The index just past the run of decimal digits that starts at `i`. */
  function DigitRunEnd(s: string, i: nat): (j: nat)
    requires i <= |s|
    ensures i <= j <= |s|
    ensures forall k :: i <= k < j ==> IsDigit(s[k])
    ensures j == |s| || !IsDigit(s[j])
    decreases |s| - i
  {
    if i < |s| && IsDigit(s[i]) then DigitRunEnd(s, i + 1) else i
  }

  predicate IsHexDigit(c: char) {
    IsDigit(c) || 'a' <= c <= 'f' || 'A' <= c <= 'F'
  }

  function HexDigitValue(c: char): nat
    requires IsHexDigit(c)
  {
    if IsDigit(c) then DigitValue(c)
    else if 'a' <= c <= 'f' then c as int - 'a' as int + 10
    else c as int - 'A' as int + 10
  }

  function HexRunEnd(s: string, i: nat): (j: nat)
    requires i <= |s|
    ensures i <= j <= |s|
    ensures forall k :: i <= k < j ==> IsHexDigit(s[k])
    decreases |s| - i
  {
    if i < |s| && IsHexDigit(s[i]) then HexRunEnd(s, i + 1) else i
  }

  function HexValue(s: string): nat
    requires forall k :: 0 <= k < |s| ==> IsHexDigit(s[k])
  {
    if s == [] then 0 else 16 * HexValue(s[..|s| - 1]) + HexDigitValue(s[|s| - 1])
  }

  /** `parseInt(s)` with no radix: leading white space is skipped, one sign is read, a
      `0x`/`0X` prefix switches to base 16, and the longest run of digits that follows is
      read; None is NaN, the result when that run is empty. */
  function ParseInt(s: string): Option<int> {
    var t := TrimStart(s);
    if t != [] && t[0] == '-' then Negate(ParseMagnitude(t[1..]))
    else if t != [] && t[0] == '+' then ParseMagnitude(t[1..])
    else ParseMagnitude(t)
  }

  function Negate(m: Option<int>): Option<int> {
    if m.Some? then Some(-m.value) else None
  }

  function ParseMagnitude(u: string): Option<int> {
    if |u| >= 2 && u[0] == '0' && (u[1] == 'x' || u[1] == 'X') then HexMagnitude(u[2..])
    else DecimalMagnitude(u)
  }

  function HexMagnitude(w: string): Option<int> {
    var h := w[..HexRunEnd(w, 0)];
    if h == [] then None else Some(HexValue(h) as int)
  }

  function DecimalMagnitude(u: string): Option<int> {
    var d := u[..DigitRunEnd(u, 0)];
    if d == [] then None else Some(DigitsValue(d) as int)
  }

  /** The decimal reading stops at the first character that cannot continue the digit run. */
  lemma ParseMagnitudeDigitPrefix(d: string, rest: string)
    requires d != [] && AllDigits(d)
    requires rest == [] || (!IsDigit(rest[0]) && (d == "0" ==> rest[0] != 'x' && rest[0] != 'X'))
    ensures ParseMagnitude(d + rest) == Some(DigitsValue(d) as int)
  {
    var u := d + rest;
    DigitRunEndIs(u, 0, |d|);
    assert u[..|d|] == d;
    if |d| == 1 && u[0] == '0' {
      assert d == "0";
    }
    assert |u| >= 2 && u[0] == '0' ==> IsDigit(u[1]) || |d| == 1;
  }

  /** `parseInt` reads a run of decimal digits and stops at the first character that
      cannot continue it. */
  lemma ParseIntDigitPrefix(d: string, rest: string)
    requires d != [] && AllDigits(d)
    requires rest == [] || (!IsDigit(rest[0]) && (d == "0" ==> rest[0] != 'x' && rest[0] != 'X'))
    ensures ParseInt(d + rest) == Some(DigitsValue(d) as int)
  {
    var u := d + rest;
    assert u[0] == d[0] && IsDigit(u[0]);
    TrimStartKeeps(u);
    ParseMagnitudeDigitPrefix(d, rest);
  }

  /** A digit run after a minus sign is read negated. */
  lemma ParseIntNegative(d: string, rest: string)
    requires d != [] && AllDigits(d)
    requires rest == [] || (!IsDigit(rest[0]) && (d == "0" ==> rest[0] != 'x' && rest[0] != 'X'))
    ensures ParseInt("-" + d + rest) == Some(-(DigitsValue(d) as int))
  {
    var u := "-" + d + rest;
    assert u[0] == '-';
    TrimStartKeeps(u);
    assert u[1..] == d + rest;
    ParseMagnitudeDigitPrefix(d, rest);
  }

  lemma TrimStartKeeps(s: string)
    requires s != [] && !IsSpace(s[0])
    ensures TrimStart(s) == s
  {
  }

  /** `parseInt(String(n)) == n`. */
  lemma ParseIntOfIntToString(n: int)
    ensures ParseInt(IntToString(n)) == Some(n)
  {
    if n < 0 {
      ParseIntNegative(NatToString(-n), []);
      assert "-" + NatToString(-n) + [] == IntToString(n);
    } else {
      ParseIntDigitPrefix(NatToString(n), []);
      assert NatToString(n) + [] == IntToString(n);
    }
  }

  lemma DigitRunEndIs(s: string, i: nat, j: nat)
    requires i <= j <= |s|
    requires forall k :: i <= k < j ==> IsDigit(s[k])
    requires j == |s| || !IsDigit(s[j])
    ensures DigitRunEnd(s, i) == j
    decreases j - i
  {
    if i < j {
      DigitRunEndIs(s, i + 1, j);
    }
  }
}
