/**
 * The string operations the settings code relies on: the .NET `int.Parse`
 * of a 32-bit integer, decimal formatting, `IndexOf` on a character and
 * `string.Format` with one `{0}` placeholder.
 */
module Text {

  datatype Option<T> = None | Some(value: T)

  /** The exceptions the .NET string and parsing routines can throw. */
  datatype Error =
    | FormatError         // System.FormatException: not an optionally signed run of digits
    | OverflowError       // System.OverflowException: outside the range of a 32-bit int
    | ArgumentOutOfRange  // System.ArgumentOutOfRangeException: a negative substring length

  datatype Result<T> = Ok(value: T) | Err(error: Error)

  const Int32Min: int := -0x8000_0000
  const Int32Max: int := 0x7FFF_FFFF

  predicate IsInt32(n: int) { Int32Min <= n <= Int32Max }

  predicate IsDigit(c: char) { '0' <= c <= '9' }

  predicate AllDigits(s: string) { forall i :: 0 <= i < |s| ==> IsDigit(s[i]) }

  /** The white-space characters `int.Parse` skips around the number:
      U+0009 to U+000D and U+0020. */
  predicate IsWhite(c: char) { '\t' <= c <= '\r' || c == ' ' }

  function DigitChar(d: nat): (c: char)
    requires d < 10
    ensures IsDigit(c)
  {
    ('0' as int + d) as char
  }

  function DigitValue(c: char): (d: nat)
    requires IsDigit(c)
    ensures d < 10 && DigitChar(d) == c
  {
    c as int - '0' as int
  }

  /** Decimal text of a natural number, without leading zeros. */
  function NatToString(n: nat): (s: string)
    ensures |s| >= 1 && AllDigits(s)
    ensures s[0] == '0' ==> n == 0
  {
    if n < 10 then [DigitChar(n)] else NatToString(n / 10) + [DigitChar(n % 10)]
  }

  /** `int.ToString()` in the invariant culture: a minus sign for negatives. */
  function IntToString(n: int): (s: string)
    ensures |s| >= 1
    ensures n < 0 <==> s[0] == '-'
    ensures forall i :: 0 <= i < |s| ==> s[i] == '-' || IsDigit(s[i])
  {
    if n < 0 then "-" + NatToString(-n) else NatToString(n)
  }

  /** The value of a run of decimal digits, most significant first. */
  function DigitsValue(s: string): nat
    requires AllDigits(s)
  {
    if |s| == 0 then 0 else DigitsValue(s[..|s| - 1]) * 10 + DigitValue(s[|s| - 1])
  }

  function TrimStart(s: string): (t: string)
    ensures |t| <= |s| && t == s[|s| - |t|..]
    ensures |t| > 0 ==> !IsWhite(t[0])
    ensures forall i :: 0 <= i < |s| - |t| ==> IsWhite(s[i])
  {
    if |s| > 0 && IsWhite(s[0]) then TrimStart(s[1..]) else s
  }

  function TrimEnd(s: string): (t: string)
    ensures |t| <= |s| && t == s[..|t|]
    ensures |t| > 0 ==> !IsWhite(t[|t| - 1])
    ensures forall i :: |t| <= i < |s| ==> IsWhite(s[i])
  {
    if |s| > 0 && IsWhite(s[|s| - 1]) then TrimEnd(s[..|s| - 1]) else s
  }

  /** The digits after an optional sign, as `int.Parse` reads them. */
  function ParseUnsigned(negative: bool, digits: string): (r: Result<int>)
    ensures r.Ok? ==> IsInt32(r.value)
    ensures r.Ok? ==> |digits| > 0 && AllDigits(digits)
    ensures r.Ok? && negative ==> r.value <= 0
    ensures r.Ok? && !negative ==> r.value >= 0
  {
    if |digits| == 0 || !AllDigits(digits) then Err(FormatError)
    else
      var v: int := if negative then -(DigitsValue(digits) as int) else DigitsValue(digits);
      if IsInt32(v) then Ok(v) else Err(OverflowError)
  }

  /** `int.Parse(s)` with the default number style: surrounding white space,
      one optional leading sign, then at least one digit; a value outside
      the 32-bit range is an overflow. */
  function ParseInt(s: string): (r: Result<int>)
    ensures r.Ok? ==> IsInt32(r.value)
    ensures |TrimEnd(TrimStart(s))| == 0 ==> r == Err(FormatError)
  {
    var t := TrimEnd(TrimStart(s));
    if |t| > 0 && (t[0] == '-' || t[0] == '+') then ParseUnsigned(t[0] == '-', t[1..])
    else ParseUnsigned(false, t)
  }

  /** `s.IndexOf(c)`: the first position of `c`, or -1. */
  function IndexOf(s: string, c: char): (r: int)
    ensures -1 <= r < |s|
    ensures r == -1 <==> c !in s
    ensures r >= 0 ==> s[r] == c && c !in s[..r]
  {
    if |s| == 0 then -1
    else if s[0] == c then 0
    else
      var k := IndexOf(s[1..], c);
      if k == -1 then -1 else 1 + k
  }

  /** `s.Substring(0, length)`: a negative length throws. */
  function Prefix(s: string, length: int): (r: Result<string>)
    requires length <= |s|
    ensures r.Ok? <==> length >= 0
    ensures r.Ok? ==> r.value == s[..length]
  {
    if length < 0 then Err(ArgumentOutOfRange) else Ok(s[..length])
  }

  /** `string.Format(template, arg)` with one argument: every `{0}` is
      replaced by `arg`, and the escapes `{{` and `}}` each stand for one
      brace. A template without braces is left as it is. */
  function FormatOne(template: string, arg: string): (s: string)
    ensures '{' !in template && '}' !in template ==> s == template
    decreases |template|
  {
    if |template| >= 3 && template[0] == '{' && template[1] == '0' && template[2] == '}' then
      arg + FormatOne(template[3..], arg)
    else if |template| >= 2 && template[0] == template[1] && (template[0] == '{' || template[0] == '}') then
      [template[0]] + FormatOne(template[2..], arg)
    else if |template| == 0 then template
    else [template[0]] + FormatOne(template[1..], arg)
  }

  // ---------------------------------------------------------------------
  // Properties

  lemma {:induction false} DigitsOfNatToString(n: nat)
    ensures DigitsValue(NatToString(n)) == n
    decreases n
  {
    if n >= 10 {
      var prefix := NatToString(n / 10);
      var s := prefix + [DigitChar(n % 10)];
      assert s[..|s| - 1] == prefix;
      DigitsOfNatToString(n / 10);
    }
  }

  /** The first occurrence of a character is the one `IndexOf` finds. */
  lemma FirstOccurrence(s: string, c: char)
    ensures forall k :: 0 <= k < |s| && s[k] == c && c !in s[..k] ==> k == IndexOf(s, c)
  {
  }

  /** Text without surrounding white space is left alone by the trim. */
  lemma TrimOfUnpadded(s: string)
    requires |s| > 0 && !IsWhite(s[0]) && !IsWhite(s[|s| - 1])
    ensures TrimEnd(TrimStart(s)) == s
  {
  }

  /** Formatting then parsing gives back every 32-bit integer. */
  lemma {:induction false} ParseIntToString(n: int)
    requires IsInt32(n)
    ensures ParseInt(IntToString(n)) == Ok(n)
  {
    var s := IntToString(n);
    if n < 0 {
      var digits := NatToString(-n);
      assert s == "-" + digits;
      assert s[1..] == digits;
      TrimOfUnpadded(s);
      DigitsOfNatToString(-n);
      ParseDigits(true, digits, -n);
    } else {
      TrimOfUnpadded(s);
      DigitsOfNatToString(n);
      ParseDigits(false, s, n);
    }
  }

  /** Digits whose value fits are read back with the sign applied. */
  lemma ParseDigits(negative: bool, digits: string, v: nat)
    requires |digits| > 0 && AllDigits(digits) && DigitsValue(digits) == v
    requires IsInt32(if negative then -(v as int) else v)
    ensures ParseUnsigned(negative, digits) == Ok(if negative then -(v as int) else v)
  {
  }

  lemma ConsThenAppend<T>(s: seq<T>, t: seq<T>, u: seq<T>)
    requires |s| > 0
    ensures s + t + u == [s[0]] + (s[1..] + t + u)
  {
    assert s == [s[0]] + s[1..];
  }

  /** A character other than a brace is copied through by the formatting. */
  lemma FormatOneCons(c: char, rest: string, arg: string)
    requires c != '{' && c != '}'
    ensures FormatOne([c] + rest, arg) == [c] + FormatOne(rest, arg)
  {
    assert ([c] + rest)[1..] == rest;
  }

  /** A doubled brace is one brace of text. */
  lemma FormatOneEscapes(rest: string, arg: string)
    ensures FormatOne("{{" + rest, arg) == "{" + FormatOne(rest, arg)
    ensures FormatOne("}}" + rest, arg) == "}" + FormatOne(rest, arg)
  {
    assert ("{{" + rest)[2..] == rest && ("}}" + rest)[2..] == rest;
  }

  /** A leading `{0}` is replaced by the argument. */
  lemma FormatOnePlaceholder(after: string, arg: string)
    ensures FormatOne("{0}" + after, arg) == arg + FormatOne(after, arg)
  {
    var t := "{0}" + after;
    assert t[0] == '{' && t[1] == '0' && t[2] == '}';
    assert t[3..] == after;
  }

  /** Leading white space does not change what `int.Parse` reads. */
  lemma ParseIgnoresLeadingWhite(c: char, s: string)
    requires IsWhite(c)
    ensures ParseInt([c] + s) == ParseInt(s)
  {
    assert ([c] + s)[1..] == s;
  }

  /** Text with a character that is neither a digit, a sign nor white space
      in the middle is rejected. */
  lemma ParseRejectsLetter(a: string, b: string)
    requires AllDigits(a) && AllDigits(b) && |a| > 0
    ensures ParseInt(a + "x" + b) == Err(FormatError)
  {
    var s := a + "x" + b;
    assert s[0] == a[0];
    if |b| > 0 { assert s[|s| - 1] == b[|b| - 1]; }
    TrimOfUnpadded(s);
    assert s[|a|] == 'x';
  }
}
