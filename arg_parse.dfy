/**
 * The two argument conversions the dispatcher performs: reading a task id
 * with `int(...)` and joining the remaining words of a description with
 * single spaces.
 */
module ArgParse {
  import opened TaskModel

  predicate IsDigit(c: char)
  {
    '0' <= c <= '9'
  }

  predicate AllDigits(s: string)
  {
    forall i :: 0 <= i < |s| ==> IsDigit(s[i])
  }

  /** The value of a string of decimal digits, most significant first. */
  function DigitsValue(s: string): nat
    requires AllDigits(s)
  {
    if s == [] then 0 else DigitsValue(s[..|s| - 1]) * 10 + (s[|s| - 1] as int - '0' as int)
  }

  /**
   * A signed decimal integer: an optional `+` or `-` followed by at least
   * one digit; anything else is not a number.
   */
  function ParseInt(s: string): (r: Option<int>)
    ensures r.Some? <==> (|s| >= 1 && AllDigits(s)) || (|s| >= 2 && (s[0] == '+' || s[0] == '-') && AllDigits(s[1..]))
    ensures r.Some? ==> s != [] && (IsDigit(s[0]) || s[0] == '+' || s[0] == '-')
    ensures r.Some? ==> |s| >= 1 && forall i :: 1 <= i < |s| ==> IsDigit(s[i])
    ensures r.Some? && s[0] == '-' ==> r.value <= 0
    ensures r.Some? && s[0] != '-' ==> r.value >= 0
  {
    if s != [] && (s[0] == '+' || s[0] == '-') then
      var digits := s[1..];
      if digits != [] && AllDigits(digits) then
        assert forall i :: 1 <= i < |s| ==> s[i] == digits[i - 1];
        var v: int := DigitsValue(digits);
        Some(if s[0] == '-' then -v else v)
      else None
    else if s != [] && AllDigits(s) then Some(DigitsValue(s))
    else None
  }

  function DigitChar(d: nat): (c: char)
    requires d < 10
    ensures IsDigit(c) && c as int - '0' as int == d
  {
    ('0' as int + d) as char
  }

  /** The shortest decimal spelling of a natural number. */
  function NatToString(n: nat): (s: string)
    ensures s != [] && AllDigits(s)
  {
    if n < 10 then [DigitChar(n)] else NatToString(n / 10) + [DigitChar(n % 10)]
  }

  /** The decimal spelling of an integer, with `-` for a negative one. */
  function IntToString(n: int): (s: string)
  {
    if n < 0 then "-" + NatToString(-n) else NatToString(n)
  }

  lemma {:induction false} DigitsRoundTrip(n: nat)
    ensures DigitsValue(NatToString(n)) == n
  {
    var s := NatToString(n);
    if n >= 10 {
      DigitsRoundTrip(n / 10);
      assert s[..|s| - 1] == NatToString(n / 10);
    }
  }

  /** Every integer, written in decimal, reads back as itself. */
  lemma ParseIntRoundTrip(n: int)
    ensures ParseInt(IntToString(n)) == Some(n)
  {
    var s := IntToString(n);
    if n < 0 {
      DigitsRoundTrip(-n);
      assert s[1..] == NatToString(-n);
    } else {
      DigitsRoundTrip(n);
    }
  }

  /** A leading zero does not change the value of a digit string. */
  lemma {:induction false} LeadingZeroValue(s: string)
    requires AllDigits(s)
    ensures AllDigits("0" + s) && DigitsValue("0" + s) == DigitsValue(s)
  {
    var z := "0" + s;
    if s != [] {
      assert z[..|z| - 1] == "0" + s[..|s| - 1];
      assert z[|z| - 1] == s[|s| - 1];
      LeadingZeroValue(s[..|s| - 1]);
    }
  }

  /** A digit string reads as its value. */
  lemma DigitsParse(s: string)
    requires |s| >= 1 && AllDigits(s)
    ensures ParseInt(s) == Some(DigitsValue(s))
  {
    assert IsDigit(s[0]);
  }

  /** A sign before a digit string: `+` keeps the value, `-` negates it. */
  lemma SignedDigitsParse(s: string)
    requires |s| >= 1 && AllDigits(s)
    ensures ParseInt("+" + s) == Some(DigitsValue(s))
    ensures ParseInt("-" + s) == Some(-(DigitsValue(s) as int))
  {
    var plus, minus := "+" + s, "-" + s;
    assert plus[0] == '+' && plus[1..] == s;
    assert minus[0] == '-' && minus[1..] == s;
  }

  /** Non-canonical spellings: a leading `+` and leading zeros do not change the number read. */
  lemma SpellingDoesNotChangeValue(s: string)
    requires |s| >= 1 && AllDigits(s)
    ensures ParseInt("+" + s) == ParseInt(s) == Some(DigitsValue(s))
    ensures ParseInt("0" + s) == ParseInt(s)
    ensures ParseInt("-" + s) == Some(-(DigitsValue(s) as int))
  {
    DigitsParse(s);
    SignedDigitsParse(s);
    LeadingZeroValue(s);
    DigitsParse("0" + s);
  }

  /** A word with no digit anywhere is not a number. */
  lemma WordIsNotNumber(s: string)
    requires forall i :: 0 <= i < |s| ==> !IsDigit(s[i])
    ensures ParseInt(s) == None
  {
  }

  /** The words joined with single spaces, as `" ".join(parts)`. */
  function Join(parts: seq<string>): string
  {
    if parts == [] then ""
    else if |parts| == 1 then parts[0]
    else parts[0] + " " + Join(parts[1..])
  }

  /** The position of the first space in `s`, or `|s|` when there is none. */
  function SpaceIndex(s: string): (i: nat)
    ensures i <= |s|
    ensures i < |s| ==> s[i] == ' '
    ensures forall j :: 0 <= j < i ==> s[j] != ' '
  {
    if s == [] then 0
    else if s[0] == ' ' then 0
    else
      var i' := SpaceIndex(s[1..]);
      assert forall j :: 1 <= j <= i' ==> s[j] == s[1..][j - 1];
      1 + i'
  }

  /** The pieces of `s` between single spaces, as `s.split(" ")`. */
  function Split(s: string): (parts: seq<string>)
    decreases |s|
  {
    var i := SpaceIndex(s);
    if i == |s| then [s] else [s[..i]] + Split(s[i + 1..])
  }

  /** Joining words that hold no space and splitting the result gives the words back. */
  lemma {:induction false} SplitJoin(parts: seq<string>)
    requires parts != []
    requires forall k :: 0 <= k < |parts| ==> ' ' !in parts[k]
    ensures Split(Join(parts)) == parts
  {
    var p := parts[0];
    if |parts| == 1 {
      forall j | 0 <= j < |p|
        ensures p[j] != ' '
      {
        assert p[j] in p;
      }
    } else {
      var rest := Join(parts[1..]);
      var s := p + " " + rest;
      assert s == Join(parts);
      var i := SpaceIndex(s);
      assert s[|p|] == ' ';
      forall j | 0 <= j < |p|
        ensures s[j] != ' '
      {
        assert s[j] == p[j] && p[j] in p;
      }
      assert i == |p|;
      assert s[..i] == p;
      assert s[i + 1..] == rest;
      SplitJoin(parts[1..]);
    }
  }
}
