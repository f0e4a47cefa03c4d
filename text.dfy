/** The Python string operations the serializer and the log parser rely on: `str` of an
    integer, `int(...)` and `float(...)` of a token, `str.split()`, `' '.join(...)`,
    `str.strip()`, `str.startswith` and `str.isdigit`. Digits and whitespace are the ASCII
    ones. */
module Text {
  import opened Wrappers

  predicate IsDigit(c: char)
  {
    '0' <= c <= '9'
  }

  /** The characters `str.split()` and `str.strip()` treat as whitespace. */
  predicate IsSpace(c: char)
  {
    c == ' ' || c == '\t' || c == '\n' || c == '\r' || c == '\U{000B}' || c == '\U{000C}'
  }

  predicate AllDigits(s: string)
  {
    forall i :: 0 <= i < |s| ==> IsDigit(s[i])
  }

  /** `s.isdigit()`: at least one character, and every character a digit. */
  predicate IsDigits(s: string)
  {
    |s| > 0 && AllDigits(s)
  }

  /** A word of `str.split()`: not empty, and no whitespace in it. */
  predicate IsToken(s: string)
  {
    |s| > 0 && forall i :: 0 <= i < |s| ==> !IsSpace(s[i])
  }

  predicate StartsWith(s: string, prefix: string)
  {
    |prefix| <= |s| && s[..|prefix|] == prefix
  }

  function DigitChar(d: nat): (c: char)
    requires d < 10
    ensures IsDigit(c)
  {
    ('0' as int + d) as char
  }

  function DigitValue(c: char): (d: nat)
    requires IsDigit(c)
    ensures d < 10
  {
    c as int - '0' as int
  }

  /** `str(n)` for a natural number: its decimal digits, most significant first. */
  function NatString(n: nat): (s: string)
    ensures IsDigits(s)
    decreases n
  {
    if n < 10 then [DigitChar(n)] else NatString(n / 10) + [DigitChar(n % 10)]
  }

  /** The number a run of digits denotes; the empty run denotes 0. */
  function DigitsValue(s: string): nat
    requires AllDigits(s)
  {
    if |s| == 0 then 0 else DigitsValue(s[..|s| - 1]) * 10 + DigitValue(s[|s| - 1])
  }

  /** Reading back the digits of n gives n. */
  lemma {:induction false} NatStringValue(n: nat)
    ensures DigitsValue(NatString(n)) == n
    decreases n
  {
    var s := NatString(n);
    if n < 10 {
      assert s[..0] == [];
    } else {
      NatStringValue(n / 10);
      assert s[..|s| - 1] == NatString(n / 10);
    }
  }

  /** `str(i)`. */
  function IntString(i: int): string
  {
    if i < 0 then "-" + NatString(-i) else NatString(i)
  }

  /** `str(i)` is one word of `split`, and not the `.` that marks a missing value. */
  lemma IntStringToken(i: int)
    ensures IsToken(IntString(i)) && IntString(i) != "."
  {
    var s := IntString(i);
    if i >= 0 {
      assert IsDigit(s[0]);
    }
  }

  /** `int(token)` for a token without whitespace: an optional sign, then digits. */
  function ParseInt(s: string): Result<int>
  {
    if |s| > 0 && (s[0] == '-' || s[0] == '+') then
      var v: int := if IsDigits(s[1..]) then DigitsValue(s[1..]) else 0;
      if IsDigits(s[1..]) then Success(if s[0] == '-' then -v else v)
      else Failure(NotAnInteger)
    else if IsDigits(s) then Success(DigitsValue(s))
    else Failure(NotAnInteger)
  }

  /** `int(str(i)) == i`. */
  lemma ParseIntString(i: int)
    ensures ParseInt(IntString(i)) == Success(i)
  {
    if i < 0 {
      var s := IntString(i);
      assert s[1..] == NatString(-i);
      NatStringValue(-i);
    } else {
      NatStringValue(i);
    }
  }

  /** The first position of c in s, or |s| when there is none. */
  function Find(s: string, c: char): (k: nat)
    ensures k <= |s|
    ensures k < |s| ==> s[k] == c
    ensures forall i :: 0 <= i < k ==> s[i] != c
  {
    if |s| == 0 then 0
    else if s[0] == c then 0
    else 1 + Find(s[1..], c)
  }

  /** The first c is where the search stops. */
  lemma FindAt(s: string, c: char, k: nat)
    requires k < |s| && s[k] == c
    requires forall i :: 0 <= i < k ==> s[i] != c
    ensures Find(s, c) == k
  {
  }

  /** Without a c the search runs to the end. */
  lemma FindNone(s: string, c: char)
    requires forall i :: 0 <= i < |s| ==> s[i] != c
    ensures Find(s, c) == |s|
  {
  }

  function Pow10(n: nat): (r: nat)
    ensures r >= 1
  {
    if n == 0 then 1 else 10 * Pow10(n - 1)
  }

  /** An unsigned decimal: digits, optionally a point and more digits, with at least one
      digit in all (`5`, `5.`, `.5`, `5.25`). */
  function UnsignedDecimal(s: string): Option<real>
  {
    var k := Find(s, '.');
    var whole := s[..k];
    var fraction := if k < |s| then s[k + 1..] else "";
    if AllDigits(whole) && AllDigits(fraction) && |whole| + |fraction| > 0 then
      Some(DigitsValue(whole) as real + DigitsValue(fraction) as real / Pow10(|fraction|) as real)
    else None
  }

  /** `float(token)` for a token without whitespace, in fixed-point notation. */
  function ParseReal(s: string): Result<real>
  {
    var signed := |s| > 0 && (s[0] == '-' || s[0] == '+');
    var u := UnsignedDecimal(if signed then s[1..] else s);
    if u.None? then Failure(NotAFloat)
    else if signed && s[0] == '-' then Success(-u.value)
    else Success(u.value)
  }

  /** A token `int` accepts, `float` accepts too, with the same value. */
  lemma ParseRealOfInt(s: string)
    requires ParseInt(s).Success?
    ensures ParseReal(s) == Success(ParseInt(s).value as real)
  {
    var signed := |s| > 0 && (s[0] == '-' || s[0] == '+');
    var body := if signed then s[1..] else s;
    assert IsDigits(body);
    assert Find(body, '.') == |body|;
    assert body[..|body|] == body;
  }

  /** The leading whitespace of s removed. */
  function TrimStart(s: string): (r: string)
    ensures |r| <= |s| && r == s[|s| - |r|..]
    ensures |r| > 0 ==> !IsSpace(r[0])
    ensures forall i :: 0 <= i < |s| - |r| ==> IsSpace(s[i])
  {
    if |s| > 0 && IsSpace(s[0]) then TrimStart(s[1..]) else s
  }

  /** The trailing whitespace of s removed. */
  function TrimEnd(s: string): (r: string)
    ensures |r| <= |s| && r == s[..|r|]
    ensures |r| > 0 ==> !IsSpace(r[|r| - 1])
    ensures forall i :: |r| <= i < |s| ==> IsSpace(s[i])
  {
    if |s| > 0 && IsSpace(s[|s| - 1]) then TrimEnd(s[..|s| - 1]) else s
  }

  /** `s.strip()`: s without its leading and trailing whitespace. */
  function Strip(s: string): string
  {
    TrimEnd(TrimStart(s))
  }

  /** Stripping keeps a contiguous part of s, starting where the leading whitespace
      ends. */
  lemma StripSlice(s: string)
    ensures var a := |s| - |TrimStart(s)|;
      a + |Strip(s)| <= |s| && Strip(s) == s[a..a + |Strip(s)|]
  {
    var t := TrimStart(s);
    var r := TrimEnd(t);
    assert r == t[..|r|];
  }

  /** Stripping drops only whitespace, before and after the part it keeps. */
  lemma StripDropsSpace(s: string)
    ensures var a := |s| - |TrimStart(s)|;
      && (forall i :: 0 <= i < a ==> IsSpace(s[i]))
      && (forall i :: a + |Strip(s)| <= i < |s| ==> IsSpace(s[i]))
  {
    var t := TrimStart(s);
    TrailingSpace(s, |s| - |t|, t, |TrimEnd(t)|);
  }

  /** What stripping keeps neither starts nor ends with whitespace. */
  lemma StripEnds(s: string)
    ensures var r := Strip(s); |r| > 0 ==> !IsSpace(r[0]) && !IsSpace(r[|r| - 1])
  {
    var t := TrimStart(s);
    var r := TrimEnd(t);
    if |r| > 0 {
      assert r[0] == t[0];
    }
  }

  /** Whitespace after position n of the suffix of s from a is whitespace of s after a + n. */
  lemma TrailingSpace(s: string, a: nat, t: string, n: nat)
    requires a <= |s| && t == s[a..] && n <= |t|
    requires forall i :: n <= i < |t| ==> IsSpace(t[i])
    ensures forall i :: a + n <= i < |s| ==> IsSpace(s[i])
  {
    forall i | a + n <= i < |s|
      ensures IsSpace(s[i])
    {
      assert s[i] == t[i - a];
    }
  }

  /** Stripping a word, or a word after one space, gives the word. */
  lemma StripToken(s: string)
    requires IsToken(s)
    ensures Strip(s) == s && Strip(" " + s) == s
  {
    assert TrimStart(s) == s;
    assert (" " + s)[1..] == s;
    assert TrimStart(" " + s) == s;
  }

  /** `str(i)` is made of digits and a leading minus sign. */
  lemma IntStringChars(i: int)
    ensures forall k :: 0 <= k < |IntString(i)| ==> IntString(i)[k] == '-' || IsDigit(IntString(i)[k])
  {
    if i < 0 {
      var s := IntString(i);
      assert forall k :: 1 <= k < |s| ==> s[k] == NatString(-i)[k - 1];
    }
  }

  /** The leading word of s: the characters before the first whitespace. */
  function Word(s: string): (w: string)
    ensures |w| <= |s| && w == s[..|w|]
    ensures forall i :: 0 <= i < |w| ==> !IsSpace(s[i])
    ensures |w| < |s| ==> IsSpace(s[|w|])
  {
    if |s| == 0 || IsSpace(s[0]) then "" else [s[0]] + Word(s[1..])
  }

  /** `s.split()`: the maximal runs of non-whitespace, in order. */
  function Split(s: string): (r: seq<string>)
    ensures forall i :: 0 <= i < |r| ==> IsToken(r[i])
    decreases |s|
  {
    var t := TrimStart(s);
    if |t| == 0 then []
    else
      var w := Word(t);
      assert |w| > 0 && IsToken(w);
      [w] + Split(t[|w|..])
  }

  /** `' '.join(ts)`. */
  function Join(ts: seq<string>): string
  {
    if |ts| == 0 then ""
    else if |ts| == 1 then ts[0]
    else ts[0] + " " + Join(ts[1..])
  }

  lemma JoinStart(ts: seq<string>)
    requires |ts| > 0 && IsToken(ts[0])
    ensures |Join(ts)| > 0 && !IsSpace(Join(ts)[0])
  {
  }

  /** Splitting words joined by single spaces gives the words back. */
  lemma {:induction false} SplitJoin(ts: seq<string>)
    requires forall i :: 0 <= i < |ts| ==> IsToken(ts[i])
    ensures Split(Join(ts)) == ts
    decreases |ts|
  {
    if |ts| == 0 {
      SplitEmpty();
    } else if |ts| == 1 {
      SplitToken(ts[0]);
      assert Join(ts) == ts[0] && ts == [ts[0]];
    } else {
      var tail := ts[1..];
      assert forall i :: 0 <= i < |tail| ==> tail[i] == ts[i + 1];
      SplitJoin(tail);
      SplitJoinCons(ts);
    }
  }

  /** A word, a space and words that split back to themselves split back to all of them. */
  lemma SplitJoinCons(ts: seq<string>)
    requires |ts| > 1 && IsToken(ts[0])
    requires Split(Join(ts[1..])) == ts[1..]
    ensures Split(Join(ts)) == ts
  {
    var rest := Join(ts[1..]);
    JoinCons(ts);
    SplitCons(ts[0], " " + rest);
    SplitSpace(rest);
    ConsTail(ts);
  }

  lemma JoinCons(ts: seq<string>)
    requires |ts| > 1
    ensures Join(ts) == ts[0] + (" " + Join(ts[1..]))
  {
  }

  lemma ConsTail<T>(s: seq<T>)
    requires |s| > 0
    ensures [s[0]] + s[1..] == s
  {
  }

  lemma SplitToken(w: string)
    requires IsToken(w)
    ensures Split(w) == [w]
  {
    SplitCons(w, "");
    assert w + "" == w;
    SplitEmpty();
  }

  lemma SplitEmpty()
    ensures Split("") == []
  {
    assert TrimStart("") == "";
  }

  /** A leading space does not change the split. */
  lemma SplitSpace(s: string)
    ensures Split(" " + s) == Split(s)
  {
    assert (" " + s)[1..] == s;
  }

  /** A token followed by whitespace, or by nothing, is the first word of the split. */
  lemma SplitCons(w: string, rest: string)
    requires IsToken(w)
    requires |rest| == 0 || IsSpace(rest[0])
    ensures Split(w + rest) == [w] + Split(rest)
  {
    var s := w + rest;
    assert TrimStart(s) == s;
    WordOf(w, rest);
    assert s[|w|..] == rest;
  }

  /** The word at the head of a token followed by whitespace, or by nothing, is the token. */
  lemma WordOf(w: string, rest: string)
    requires IsToken(w)
    requires |rest| == 0 || IsSpace(rest[0])
    ensures Word(w + rest) == w
  {
    var s := w + rest;
    assert s[..|w|] == w;
  }
}
