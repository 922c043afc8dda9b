/**
 * The pieces of the C and C++ standard libraries the compiler leans on, for
 * the ASCII ("C" locale) character set: the <cctype> classifiers, the
 * `std::string` searches, `std::to_string`, `std::stoi` and the
 * whitespace-separated reads of `std::istringstream >> std::string`.
 */
module Text {
  import opened Wrappers

  // ---------------------------------------------------------------- <cctype>

  predicate IsAlpha(c: char) { 'a' <= c <= 'z' || 'A' <= c <= 'Z' }

  predicate IsDigit(c: char) { '0' <= c <= '9' }

  predicate IsAlnum(c: char) { IsAlpha(c) || IsDigit(c) }

  /** `std::isspace`: space, tab, newline, vertical tab, form feed, carriage return. */
  predicate IsSpace(c: char) { c == ' ' || '\t' <= c <= '\r' }

  function ToLowerChar(c: char): (r: char)
    ensures IsAlpha(c) ==> IsAlpha(r) && !('A' <= r <= 'Z')
    ensures !('A' <= c <= 'Z') ==> r == c
    ensures 'A' <= c <= 'Z' ==> r as int == c as int + 32
  {
    if 'A' <= c <= 'Z' then (c as int + 32) as char else c
  }

  /** `std::transform(..., std::tolower)` over a whole string. */
  function ToLower(s: string): (r: string)
    ensures |r| == |s|
  {
    if s == [] then [] else [ToLowerChar(s[0])] + ToLower(s[1..])
  }

  /** Every character of ToLower(s) is the lowercase of the character of s at that index. */
  lemma {:induction false} ToLowerChars(s: string)
    ensures forall i :: 0 <= i < |s| ==> ToLower(s)[i] == ToLowerChar(s[i])
  {
    if s != [] {
      ToLowerChars(s[1..]);
    }
  }

  // ------------------------------------------------------ std::string helpers

  /** `std::string(n, ' ')`. */
  function Spaces(n: nat): (s: string)
    ensures |s| == n
    ensures forall i :: 0 <= i < n ==> s[i] == ' '
  {
    if n == 0 then "" else Spaces(n - 1) + " "
  }

  /** Number of leading ' ' characters. */
  function LeadingSpaces(s: string): (k: nat)
    ensures k <= |s|
    ensures forall i :: 0 <= i < k ==> s[i] == ' '
    ensures k < |s| ==> s[k] != ' '
  {
    if s != [] && s[0] == ' ' then 1 + LeadingSpaces(s[1..]) else 0
  }

  /** `s.find(c)`: the first index holding `c`, if any. */
  function FindChar(s: string, c: char): (r: Option<nat>)
    ensures r.Some? ==> r.value < |s| && s[r.value] == c
    ensures r.Some? ==> forall j :: 0 <= j < r.value ==> s[j] != c
    ensures r.None? <==> c !in s
  {
    if s == [] then None
    else if s[0] == c then Some(0)
    else match FindChar(s[1..], c)
      case None => None
      case Some(k) => Some(k + 1)
  }

  /** `s.find_first_not_of(chars)`. */
  function FindFirstNotOf(s: string, chars: set<char>): (r: Option<nat>)
    ensures r.Some? ==> r.value < |s| && s[r.value] !in chars
    ensures r.Some? ==> forall j :: 0 <= j < r.value ==> s[j] in chars
    ensures r.None? ==> forall j :: 0 <= j < |s| ==> s[j] in chars
  {
    if s == [] then None
    else if s[0] !in chars then Some(0)
    else match FindFirstNotOf(s[1..], chars)
      case None => None
      case Some(k) => Some(k + 1)
  }

  predicate OccursAt(s: string, pat: string, i: nat)
  {
    i + |pat| <= |s| && s[i..i + |pat|] == pat
  }

  /** `s.find(pat)`: the first index where `pat` occurs, if any (see FindFirst). */
  function Find(s: string, pat: string): (r: Option<nat>)
    ensures r.Some? ==> r.value + |pat| <= |s|
    decreases |s|
  {
    if |pat| > |s| then None
    else if s[..|pat|] == pat then Some(0)
    else match Find(s[1..], pat)
      case None => None
      case Some(k) => Some(k + 1)
  }

  /** Find returns the first index where the pattern occurs, and nothing when it occurs nowhere. */
  lemma {:induction false} FindFirst(s: string, pat: string)
    ensures Find(s, pat).Some? ==> OccursAt(s, pat, Find(s, pat).value)
    ensures Find(s, pat).Some? ==> forall j :: 0 <= j < Find(s, pat).value ==> !OccursAt(s, pat, j)
    ensures Find(s, pat).None? ==> forall j :: 0 <= j <= |s| ==> !OccursAt(s, pat, j)
    decreases |s|
  {
    if |pat| <= |s| && s[..|pat|] != pat {
      FindFirst(s[1..], pat);
      assert forall j :: 1 <= j <= |s| ==> (OccursAt(s, pat, j) <==> OccursAt(s[1..], pat, j - 1));
    }
  }

  // ------------------------------------------------------------ decimal text

  const IntMin: int := -0x8000_0000
  const IntMax: int := 0x7fff_ffff

  predicate InIntRange(x: int) { IntMin <= x <= IntMax }

  function Abs(x: int): nat
  {
    if x >= 0 then x else -x
  }

  /** The quotient of natural numbers is the largest multiple that fits. */
  lemma QuotientBounds(ua: nat, ub: nat)
    requires ub > 0
    ensures (ua / ub) * ub <= ua < (ua / ub + 1) * ub
  {
    var d, m := ua / ub, ua % ub;
    assert d * ub + m == ua && 0 <= m < ub;
    assert (d + 1) * ub == d * ub + ub;
  }

  /**
   * C++ `/` on `int`: the quotient truncated toward zero. Its magnitude is
   * the largest number of times |b| fits into |a|, and its sign is the
   * product of the operands' signs.
   */
  function TruncDiv(a: int, b: int): (q: int)
    requires b != 0
    ensures (a >= 0) == (b >= 0) ==> q >= 0
    ensures (a >= 0) != (b >= 0) ==> q <= 0
    ensures Abs(q) * Abs(b) <= Abs(a) < (Abs(q) + 1) * Abs(b)
  {
    var d := Abs(a) / Abs(b);
    QuotientBounds(Abs(a), Abs(b));
    var q := if (a >= 0) == (b >= 0) then d else -d;
    assert Abs(q) == d;
    q
  }

  function DigitChar(d: nat): (c: char)
    requires d < 10
    ensures IsDigit(c)
  {
    ('0' as int + d) as char
  }

  function DigitValue(c: char): nat
    requires IsDigit(c)
  {
    c as int - '0' as int
  }

  /** Decimal digits of a natural number, most significant first, no leading zeros. */
  function NatToString(n: nat): (s: string)
    ensures |s| > 0
    ensures forall i :: 0 <= i < |s| ==> IsDigit(s[i])
    decreases n
  {
    if n < 10 then [DigitChar(n)] else NatToString(n / 10) + [DigitChar(n % 10)]
  }

  /** `std::to_string(int)` and `operator<<(int)`: optional minus sign, then decimal digits. */
  function IntToString(i: int): (s: string)
    ensures |s| > 0
    ensures forall k :: 0 <= k < |s| ==> IsDigit(s[k]) || (k == 0 && s[k] == '-')
  {
    if i < 0 then "-" + NatToString(-i) else NatToString(i)
  }

  /** The value of a string of decimal digits. */
  function DigitsValue(u: string): nat
    requires forall i :: 0 <= i < |u| ==> IsDigit(u[i])
  {
    if u == [] then 0 else DigitsValue(u[..|u| - 1]) * 10 + DigitValue(u[|u| - 1])
  }

  /** Length of the longest prefix of decimal digits. */
  function DigitRun(u: string): (k: nat)
    ensures k <= |u|
    ensures forall i :: 0 <= i < k ==> IsDigit(u[i])
    ensures k < |u| ==> !IsDigit(u[k])
  {
    if u != [] && IsDigit(u[0]) then 1 + DigitRun(u[1..]) else 0
  }

  /** Length of the leading run of whitespace. */
  function SpaceRun(s: string): (k: nat)
    ensures k <= |s|
    ensures k < |s| ==> !IsSpace(s[k])
  {
    if s != [] && IsSpace(s[0]) then 1 + SpaceRun(s[1..]) else 0
  }

  /**
   * `std::stoi(s)`: leading whitespace, an optional sign and a non-empty run of
   * digits, read as far as the digits go. `None` stands for the exceptions it
   * throws: `std::invalid_argument` (no digits) and `std::out_of_range` (the
   * value does not fit an `int`).
   */
  function Stoi(s: string): (r: Option<int>)
    ensures r.Some? ==> InIntRange(r.value)
    ensures r.Some? ==> exists i :: 0 <= i < |s| && IsDigit(s[i])
  {
    var t := s[SpaceRun(s)..];
    var negative := t != [] && t[0] == '-';
    var u := if t != [] && (t[0] == '-' || t[0] == '+') then t[1..] else t;
    var k := DigitRun(u);
    if k == 0 then None
    else
      assert IsDigit(s[|s| - |u|]);
      var v: int := DigitsValue(u[..k]);
      var x: int := if negative then -v else v;
      if InIntRange(x) then Some(x) else None
  }

  lemma {:induction false} DigitsValueOfNat(n: nat)
    ensures DigitsValue(NatToString(n)) == n
    decreases n
  {
    var s := NatToString(n);
    if n >= 10 {
      DigitsValueOfNat(n / 10);
      assert s[..|s| - 1] == NatToString(n / 10);
    }
  }

  lemma DigitRunAll(u: string)
    requires forall i :: 0 <= i < |u| ==> IsDigit(u[i])
    ensures DigitRun(u) == |u|
  {
  }

  /** `std::stoi` reads back what `std::to_string` writes, for every `int`. */
  lemma StoiOfIntToString(i: int)
    requires InIntRange(i)
    ensures Stoi(IntToString(i)) == Some(i)
  {
    if i < 0 {
      StoiOfNegative(-i);
    } else {
      StoiOfNatToString(i);
    }
  }

  lemma StoiOfNatToString(n: nat)
    requires InIntRange(n)
    ensures Stoi(NatToString(n)) == Some(n)
  {
    var s := NatToString(n);
    assert SpaceRun(s) == 0 && s[0..] == s;
    DigitRunAll(s);
    assert s[..|s|] == s;
    DigitsValueOfNat(n);
  }

  lemma StoiOfNegative(n: nat)
    requires n > 0 && InIntRange(-(n as int))
    ensures Stoi("-" + NatToString(n)) == Some(-(n as int))
  {
    var u := NatToString(n);
    var s := "-" + u;
    assert s[0] == '-' && !IsSpace(s[0]);
    assert SpaceRun(s) == 0;
    assert s[0..] == s && s[1..] == u;
    DigitRunAll(u);
    assert u[..DigitRun(u)] == u;
    DigitsValueOfNat(n);
  }

  /** The digit run stops where the digits stop. */
  lemma {:induction false} DigitRunThen(u: string, rest: string)
    requires forall i :: 0 <= i < |u| ==> IsDigit(u[i])
    requires rest == [] || !IsDigit(rest[0])
    ensures DigitRun(u + rest) == |u|
    decreases |u|
  {
    if u != [] {
      assert (u + rest)[1..] == u[1..] + rest;
      DigitRunThen(u[1..], rest);
    } else {
      assert u + rest == rest;
    }
  }

  /**
   * `std::stoi` reads a number's digits and ignores what follows them, so
   * `3.5` reads as 3.
   */
  lemma StoiOfPrefix(n: nat, rest: string)
    requires InIntRange(n)
    requires rest == [] || !IsDigit(rest[0])
    ensures Stoi(NatToString(n) + rest) == Some(n)
  {
    var u := NatToString(n);
    var s := u + rest;
    assert s[0] == u[0];
    assert SpaceRun(s) == 0 && s[0..] == s;
    DigitRunThen(u, rest);
    assert s[..|u|] == u;
    DigitsValueOfNat(n);
  }

  // --------------------------------------------- istringstream >> std::string

  /** A single whitespace-free, non-empty token. */
  predicate IsWord(w: string)
  {
    w != [] && forall i :: 0 <= i < |w| ==> !IsSpace(w[i])
  }

  /** Length of the leading run of non-whitespace characters. */
  function WordLength(s: string): (k: nat)
    ensures k <= |s|
  {
    if s != [] && !IsSpace(s[0]) then 1 + WordLength(s[1..]) else 0
  }

  /** The tokens that repeated `iss >> token` reads from `s`. */
  function Words(s: string): (ws: seq<string>)
    decreases |s|
  {
    if s == [] then []
    else if IsSpace(s[0]) then Words(s[1..])
    else
      var k := WordLength(s);
      [s[..k]] + Words(s[k..])
  }

  lemma WordsOfWordThen(w: string, rest: string)
    requires IsWord(w)
    requires rest == [] || IsSpace(rest[0])
    ensures Words(w + rest) == [w] + Words(rest)
  {
    var s := w + rest;
    assert WordLength(s) == |w| by {
      WordLengthOf(w, rest);
    }
    assert s[..|w|] == w && s[|w|..] == rest;
  }

  lemma {:induction false} WordLengthOf(w: string, rest: string)
    requires forall i :: 0 <= i < |w| ==> !IsSpace(w[i])
    requires rest == [] || IsSpace(rest[0])
    ensures WordLength(w + rest) == |w|
  {
    if w != [] {
      assert (w + rest)[1..] == w[1..] + rest;
      WordLengthOf(w[1..], rest);
    } else {
      assert w + rest == rest;
    }
  }

  /** A token on its own reads back as one token. */
  lemma WordsOfWord(w: string)
    requires IsWord(w)
    ensures Words(w) == [w]
  {
    WordsOfWordThen(w, "");
    assert w + "" == w;
  }

  lemma WordsAfterSpace(rest: string)
    ensures Words(" " + rest) == Words(rest)
  {
    assert (" " + rest)[1..] == rest;
  }

  lemma WordsOfWordThenSpace(w: string, rest: string)
    requires IsWord(w)
    ensures Words(w + " " + rest) == [w] + Words(rest)
  {
    assert w + " " + rest == w + (" " + rest);
    WordsOfWordThen(w, " " + rest);
    WordsAfterSpace(rest);
  }

  /** Three tokens joined by single spaces read back as those three tokens. */
  lemma WordsOfThree(a: string, b: string, c: string)
    requires IsWord(a) && IsWord(b) && IsWord(c)
    ensures Words(a + " " + b + " " + c) == [a, b, c]
  {
    var bc := b + " " + c;
    var s := a + " " + bc;
    assert a + " " + b + " " + c == s;
    WordsOfWordThenSpace(a, bc);
    assert Words(s) == [a] + Words(bc);
    WordsOfWordThenSpace(b, c);
    assert Words(bc) == [b] + Words(c);
    WordsOfWord(c);
    assert Words(c) == [c];
    assert [a] + ([b] + [c]) == [a, b, c];
    assert Words(s) == [a, b, c];
  }
}
