/**
 * The string handling the ray tracer relies on: decimal rendering of integers
 * (`to_string`), decimal parsing of indices (`parse::<usize>`), splitting on a
 * separator (`split`, `lines`, `split_whitespace`) and joining.
 */
module Strings {
  import opened Options

  /** Unicode White_Space, the separator set of Rust's `split_whitespace`. */
  predicate IsWhitespace(c: char)
  {
    ('\t' <= c <= '\r') || c == ' ' || c == '\U{0085}' || c == '\U{00A0}' || c == '\U{1680}'
    || ('\U{2000}' <= c <= '\U{200A}') || c == '\U{2028}' || c == '\U{2029}' || c == '\U{202F}'
    || c == '\U{205F}' || c == '\U{3000}'
  }

  predicate NoWhitespace(s: string)
  {
    forall i :: 0 <= i < |s| ==> !IsWhitespace(s[i])
  }

  predicate IsDigit(c: char)
  {
    '0' <= c <= '9'
  }

  predicate AllDigits(s: string)
  {
    forall i :: 0 <= i < |s| ==> IsDigit(s[i])
  }

  function DigitChar(d: nat): char
    requires d < 10
  {
    "0123456789"[d]
  }

  function DigitValue(c: char): nat
    requires IsDigit(c)
  {
    (c as int - '0' as int) as nat
  }

  /** `to_string` of an unsigned integer: its decimal digits, no sign, no leading zero. */
  function NatToString(n: nat): (s: string)
    ensures 1 <= |s|
    ensures forall i :: 0 <= i < |s| ==> IsDigit(s[i])
    ensures n < 10 <==> |s| == 1
    ensures |s| > 1 ==> s[0] != '0'
  {
    if n < 10 then [DigitChar(n)] else NatToString(n / 10) + [DigitChar(n % 10)]
  }

  /** The value of a non-empty run of decimal digits. */
  function DigitsValue(s: string): nat
    requires AllDigits(s)
  {
    if |s| == 0 then 0 else DigitsValue(s[..|s| - 1]) * 10 + DigitValue(s[|s| - 1])
  }

  /** Decimal rendering and reading are inverse. */
  lemma {:induction false} DigitsValueOfNatToString(n: nat)
    ensures DigitsValue(NatToString(n)) == n
  {
    var s := NatToString(n);
    if n >= 10 {
      DigitsValueOfNatToString(n / 10);
      assert s[..|s| - 1] == NatToString(n / 10);
    }
  }

  /** A rendered number is at most three characters long exactly when it is below 1000. */
  lemma {:induction false} NatToStringLength(n: nat)
    ensures n < 1000 <==> |NatToString(n)| <= 3
    ensures n < 100 <==> |NatToString(n)| <= 2
  {
    if n >= 10 {
      NatToStringLength(n / 10);
    }
  }

  lemma NatToStringNoWhitespace(n: nat)
    ensures NoWhitespace(NatToString(n))
  {
    var s := NatToString(n);
    forall i | 0 <= i < |s| ensures !IsWhitespace(s[i]) {
      assert IsDigit(s[i]);
    }
  }

  /**
   * Rust `str::parse::<usize>`: an optional leading '+', then one or more
   * decimal digits and nothing else. (The bound at usize::MAX is not modelled.)
   */
  function ParseUsize(s: string): (r: Option<nat>)
    ensures r.Some? ==> |s| >= 1
    ensures r.Some? <==> (|s| > 0 && AllDigits(s)) || (|s| > 1 && s[0] == '+' && AllDigits(s[1..]))
  {
    var digits := if |s| > 0 && s[0] == '+' then s[1..] else s;
    if |digits| > 0 && AllDigits(digits)
    then Some(DigitsValue(digits))
    else None
  }

  /** Every rendered number parses back to itself. */
  lemma ParseUsizeOfNatToString(n: nat)
    ensures ParseUsize(NatToString(n)) == Some(n)
  {
    DigitsValueOfNatToString(n);
  }

  /** The text that is not a number: empty, a sign alone, or anything with a non-digit. */
  lemma ParseUsizeRejects(s: string)
    ensures s == "" ==> ParseUsize(s) == None
    ensures s == "+" ==> ParseUsize(s) == None
    ensures (exists i :: 1 <= i < |s| && !IsDigit(s[i])) ==> ParseUsize(s) == None
  {
    if exists i :: 1 <= i < |s| && !IsDigit(s[i]) {
      var i :| 1 <= i < |s| && !IsDigit(s[i]);
      if s[0] == '+' {
        var digits := s[1..];
        assert digits[i - 1] == s[i];
        assert !AllDigits(digits);
      } else {
        assert !IsDigit(s[i]);
      }
    }
  }

  /** A first character that is neither '+' nor a digit is rejected; a leading '+' reads through. */
  lemma ParseUsizeSign(s: string, n: nat)
    ensures |s| > 0 && s[0] != '+' && !IsDigit(s[0]) ==> ParseUsize(s) == None
    ensures ParseUsize("+" + NatToString(n)) == Some(n)
  {
    assert ("+" + NatToString(n))[1..] == NatToString(n);
    DigitsValueOfNatToString(n);
  }

  /**
   * The fields of `s` between separator characters, like Rust's `split`:
   * there is always at least one field, and adjacent separators give empty fields.
   */
  function SplitOn(s: string, isSep: char -> bool): (fields: seq<string>)
    ensures |fields| >= 1
    ensures forall i, j :: 0 <= i < |fields| && 0 <= j < |fields[i]| ==> !isSep(fields[i][j])
  {
    if |s| == 0 then [""]
    else
      var rest := SplitOn(s[1..], isSep);
      if isSep(s[0]) then [""] + rest else [[s[0]] + rest[0]] + rest[1..]
  }

  /** Splitting at a separator splits the fields. */
  lemma {:induction false} SplitOnAppend(a: string, c: char, b: string, isSep: char -> bool)
    requires isSep(c)
    ensures SplitOn(a + [c] + b, isSep) == SplitOn(a, isSep) + SplitOn(b, isSep)
  {
    if |a| == 0 {
      assert a + [c] + b == [c] + b;
      assert ([c] + b)[1..] == b;
    } else {
      assert (a + [c] + b)[1..] == a[1..] + [c] + b;
      SplitOnAppend(a[1..], c, b, isSep);
    }
  }

  /** A string without separators is a single field. */
  lemma {:induction false} SplitOnNoSeparator(t: string, isSep: char -> bool)
    requires forall i :: 0 <= i < |t| ==> !isSep(t[i])
    ensures SplitOn(t, isSep) == [t]
  {
    if |t| > 0 {
      SplitOnNoSeparator(t[1..], isSep);
      assert [t[0]] + t[1..] == t;
    }
  }

  /** The non-empty fields, in order. */
  function NonEmpty(fields: seq<string>): (r: seq<string>)
    ensures forall i :: 0 <= i < |r| ==> r[i] != ""
    ensures |r| <= |fields|
  {
    if |fields| == 0 then []
    else if fields[0] == "" then NonEmpty(fields[1..])
    else [fields[0]] + NonEmpty(fields[1..])
  }

  lemma {:induction false} NonEmptyAppend(a: seq<string>, b: seq<string>)
    ensures NonEmpty(a + b) == NonEmpty(a) + NonEmpty(b)
  {
    if |a| > 0 {
      assert (a + b)[1..] == a[1..] + b;
      NonEmptyAppend(a[1..], b);
    } else {
      assert a + b == b;
    }
  }

  /** Rust `split_whitespace`: the maximal runs of non-whitespace characters. */
  function Words(s: string): (words: seq<string>)
    ensures forall i :: 0 <= i < |words| ==> words[i] != "" && NoWhitespace(words[i])
  {
    var fields := SplitOn(s, IsWhitespace);
    var r := NonEmpty(fields);
    assert forall i :: 0 <= i < |r| ==> r[i] in fields by {
      NonEmptyIn(fields);
    }
    r
  }

  lemma {:induction false} NonEmptyIn(fields: seq<string>)
    ensures forall i :: 0 <= i < |NonEmpty(fields)| ==> NonEmpty(fields)[i] in fields
  {
    if |fields| > 0 {
      NonEmptyIn(fields[1..]);
    }
  }

  /** Whitespace between two strings separates their words. */
  lemma WordsAppend(a: string, c: char, b: string)
    requires IsWhitespace(c)
    ensures Words(a + [c] + b) == Words(a) + Words(b)
  {
    SplitOnAppend(a, c, b, IsWhitespace);
    NonEmptyAppend(SplitOn(a, IsWhitespace), SplitOn(b, IsWhitespace));
  }

  /** A non-empty string without whitespace is one word. */
  lemma WordsOfToken(t: string)
    requires t != "" && NoWhitespace(t)
    ensures Words(t) == [t]
  {
    SplitOnNoSeparator(t, IsWhitespace);
  }

  /** A word followed by whitespace is the first word. */
  lemma WordsConsToken(t: string, c: char, rest: string)
    requires t != "" && NoWhitespace(t) && IsWhitespace(c)
    ensures Words(t + [c] + rest) == [t] + Words(rest)
  {
    WordsAppend(t, c, rest);
    WordsOfToken(t);
  }

  lemma WordsOfEmpty()
    ensures Words("") == []
  {
  }

  /** The tokens joined by single spaces. */
  function JoinSpace(tokens: seq<string>): (s: string)
    ensures |tokens| == 1 ==> s == tokens[0]
  {
    if |tokens| == 0 then ""
    else if |tokens| == 1 then tokens[0]
    else tokens[0] + " " + JoinSpace(tokens[1..])
  }

  /** Splitting a space-joined list of words gives the list back. */
  lemma {:induction false} WordsOfJoinSpace(tokens: seq<string>)
    requires forall i :: 0 <= i < |tokens| ==> tokens[i] != "" && NoWhitespace(tokens[i])
    ensures Words(JoinSpace(tokens)) == tokens
  {
    if |tokens| == 0 {
      WordsOfEmpty();
    } else if |tokens| == 1 {
      WordsOfToken(tokens[0]);
    } else {
      WordsOfJoinSpace(tokens[1..]);
      WordsOfToken(tokens[0]);
      WordsAppend(tokens[0], ' ', JoinSpace(tokens[1..]));
      assert tokens[0] + " " + JoinSpace(tokens[1..]) == tokens[0] + [' '] + JoinSpace(tokens[1..]);
      assert tokens == [tokens[0]] + tokens[1..];
    }
  }

  predicate IsNewline(c: char)
  {
    c == '\n'
  }

  /** Rust `str::lines` for text whose line ends are '\n': a final empty line is not reported. */
  function Lines(s: string): (lines: seq<string>)
    ensures forall i, j :: 0 <= i < |lines| && 0 <= j < |lines[i]| ==> lines[i][j] != '\n'
  {
    var fields := SplitOn(s, IsNewline);
    if fields[|fields| - 1] == "" then fields[..|fields| - 1] else fields
  }

  lemma LinesOfEmpty()
    ensures Lines("") == []
  {
  }
}
