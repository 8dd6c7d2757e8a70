/** The pieces of java.lang.String, java.lang.Integer and java.util.Scanner that
    Reader.java relies on, stated over Dafny strings (sequences of char). */
module JavaText {

  datatype Option<+T> = None | Some(value: T)

  // ---------------------------------------------------------------------------
  // String.contains
  // ---------------------------------------------------------------------------

  /** `pat` occurs in `s` starting at index `k`. */
  predicate OccursAt(s: string, pat: string, k: int)
  {
    0 <= k && k + |pat| <= |s| && s[k..k + |pat|] == pat
  }

  /** String.contains: `pat` is a substring of `s`. */
  predicate Contains(s: string, pat: string)
    ensures Contains(s, pat) ==> |pat| <= |s|
    ensures pat == [] ==> Contains(s, pat)
  {
    assert pat == [] ==> OccursAt(s, pat, 0);
    exists k | 0 <= k <= |s| - |pat| :: OccursAt(s, pat, k)
  }

  // ---------------------------------------------------------------------------
  // Scanner tokens: maximal runs of non-whitespace characters
  // ---------------------------------------------------------------------------

  /** Character.isWhitespace on the characters below U+0080. */
  predicate IsSpace(c: char)
  {
    c == ' ' || c == '\t' || c == '\n' || c == '\r' || c == '\U{B}' || c == '\U{C}'
    || ('\U{1C}' <= c <= '\U{1F}')
  }

  /** A token Scanner.next() can return: non-empty, no whitespace. */
  predicate IsWord(w: string)
  {
    |w| > 0 && forall k :: 0 <= k < |w| ==> !IsSpace(w[k])
  }

  /** Length of the run of non-whitespace characters at the start of `s`. */
  function WordLength(s: string): (n: nat)
    ensures n <= |s|
    ensures forall k :: 0 <= k < n ==> !IsSpace(s[k])
    ensures n < |s| ==> IsSpace(s[n])
  {
    if s == [] || IsSpace(s[0]) then 0 else 1 + WordLength(s[1..])
  }

  /** The tokens a Scanner with the default delimiter reads from `s`, in order. */
  function Tokens(s: string): (ts: seq<string>)
    ensures forall j :: 0 <= j < |ts| ==> IsWord(ts[j])
    decreases |s|
  {
    if s == [] then []
    else if IsSpace(s[0]) then Tokens(s[1..])
    else
      var n := WordLength(s);
      [s[..n]] + Tokens(s[n..])
  }

  /** The token stream of a whole file given as its lines: line breaks are
      whitespace, so it is the concatenation of each line's tokens. */
  function LogTokens(lines: seq<string>): seq<string>
  {
    if lines == [] then [] else Tokens(lines[0]) + LogTokens(lines[1..])
  }

  /** The words set in columns: each word right-justified in a field of the
      given width, with at least one blank before it, as a table row is
      printed. */
  function AlignWords(ws: seq<string>, widths: seq<int>): (r: string)
    requires |widths| == |ws|
    ensures r == [] <==> ws == []
    ensures r != [] ==> r[0] == ' '
  {
    if ws == [] then ""
    else
      var pad := if widths[0] - |ws[0]| < 1 then 1 else widths[0] - |ws[0]|;
      Spaces(pad) + (ws[0] + AlignWords(ws[1..], widths[1..]))
  }

  lemma {:induction false} WordLengthOfWord(w: string, rest: string)
    requires forall k :: 0 <= k < |w| ==> !IsSpace(w[k])
    requires rest == [] || IsSpace(rest[0])
    ensures WordLength(w + rest) == |w|
    decreases |w|
  {
    if w != [] {
      assert (w + rest)[1..] == w[1..] + rest;
      WordLengthOfWord(w[1..], rest);
    } else {
      assert w + rest == rest;
    }
  }

  /** Leading blanks do not change the tokens of a line. */
  lemma {:induction false} TokensAfterSpaces(k: int, s: string)
    ensures Tokens(Spaces(k) + s) == Tokens(s)
    decreases if k < 0 then 0 else k
  {
    if k > 0 {
      assert Spaces(k) + s == Spaces(k - 1) + (" " + s);
      assert (" " + s)[1..] == s;
      TokensAfterSpaces(k - 1, " " + s);
    } else {
      assert Spaces(k) + s == s;
    }
  }

  /** A word followed by a blank or by nothing is the first token. */
  lemma TokensOfWordThenRest(w: string, rest: string)
    requires IsWord(w) && (rest == [] || IsSpace(rest[0]))
    ensures Tokens(w + rest) == [w] + Tokens(rest)
  {
    WordLengthOfWord(w, rest);
    assert (w + rest)[..|w|] == w;
    assert (w + rest)[|w|..] == rest;
  }

  /** Splitting words set in columns gives the words back, whatever the
      column widths. */
  lemma {:induction false} TokensOfAlignWords(ws: seq<string>, widths: seq<int>)
    requires |widths| == |ws|
    requires forall j :: 0 <= j < |ws| ==> IsWord(ws[j])
    ensures Tokens(AlignWords(ws, widths)) == ws
  {
    if ws != [] {
      var w, rest := ws[0], AlignWords(ws[1..], widths[1..]);
      var pad := if widths[0] - |w| < 1 then 1 else widths[0] - |w|;
      assert AlignWords(ws, widths) == Spaces(pad) + (w + rest);
      TokensOfPaddedWord(pad, w, rest);
      TokensOfAlignWords(ws[1..], widths[1..]);
      assert ws == [w] + ws[1..];
    }
  }

  /** Blanks, a word, then a blank or nothing: the word is the first token. */
  lemma TokensOfPaddedWord(pad: int, w: string, rest: string)
    requires IsWord(w) && (rest == [] || IsSpace(rest[0]))
    ensures Tokens(Spaces(pad) + (w + rest)) == [w] + Tokens(rest)
  {
    TokensAfterSpaces(pad, w + rest);
    TokensOfWordThenRest(w, rest);
  }

  lemma {:induction false} WordLengthAppendSpace(s: string, c: char)
    requires IsSpace(c)
    ensures WordLength(s + [c]) == WordLength(s)
  {
    if s != [] && !IsSpace(s[0]) {
      assert (s + [c])[1..] == s[1..] + [c];
      WordLengthAppendSpace(s[1..], c);
    }
  }

  /** A trailing whitespace character does not change the tokens of a line. */
  lemma {:induction false} TokensAppendSpace(s: string, c: char)
    requires IsSpace(c)
    ensures Tokens(s + [c]) == Tokens(s)
    decreases |s|
  {
    if s == [] {
      assert Tokens([c]) == Tokens([c][1..]);
    } else if IsSpace(s[0]) {
      assert (s + [c])[1..] == s[1..] + [c];
      TokensAppendSpace(s[1..], c);
    } else {
      var n := WordLength(s);
      WordLengthAppendSpace(s, c);
      assert (s + [c])[..n] == s[..n];
      assert (s + [c])[n..] == s[n..] + [c];
      TokensAppendSpace(s[n..], c);
    }
  }

  // ---------------------------------------------------------------------------
  // String.trim
  // ---------------------------------------------------------------------------

  function TrimStart(s: string): (r: string)
    ensures |r| <= |s| && r == s[|s| - |r|..]
    ensures r == [] || r[0] > ' '
  {
    if |s| > 0 && s[0] <= ' ' then TrimStart(s[1..]) else s
  }

  function TrimEnd(s: string): (r: string)
    ensures |r| <= |s| && r == s[..|r|]
    ensures r == [] || r[|r| - 1] > ' '
  {
    if |s| > 0 && s[|s| - 1] <= ' ' then TrimEnd(s[..|s| - 1]) else s
  }

  /** String.trim: drops every character up to U+0020 from both ends. */
  function Trim(s: string): (r: string)
    ensures |r| <= |s|
    ensures r == [] || (r[0] > ' ' && r[|r| - 1] > ' ')
  {
    TrimEnd(TrimStart(s))
  }

  /** `k` spaces (none when `k` is not positive). */
  function Spaces(k: int): (r: string)
    ensures |r| == if k < 0 then 0 else k
    ensures forall j :: 0 <= j < |r| ==> r[j] == ' '
  {
    if k <= 0 then "" else Spaces(k - 1) + " "
  }

  /** A word surrounded by blanks trims to itself. */
  lemma {:induction false} TrimPadded(k: int, d: string)
    requires |d| > 0 && d[0] > ' ' && d[|d| - 1] > ' '
    ensures Trim(Spaces(k) + d) == d
    decreases if k < 0 then 0 else k
  {
    if k <= 0 {
      assert Spaces(k) + d == d;
    } else {
      var s := Spaces(k) + d;
      assert s[0] == ' ';
      assert s[1..] == Spaces(k - 1) + d by {
        assert Spaces(k) == Spaces(k - 1) + " ";
        assert Spaces(k) == " " + Spaces(k - 1);
      }
      TrimPadded(k - 1, d);
    }
  }

  // ---------------------------------------------------------------------------
  // Decimal numerals: Integer.toString, Integer.parseInt
  // ---------------------------------------------------------------------------

  predicate IsDigit(c: char)
  {
    '0' <= c <= '9'
  }

  predicate AllDigits(s: string)
  {
    forall k :: 0 <= k < |s| ==> IsDigit(s[k])
  }

  function DigitChar(d: nat): char
    requires d < 10
  {
    "0123456789"[d]
  }

  function DigitValue(c: char): nat
    requires IsDigit(c)
  {
    (c as int) - ('0' as int)
  }

  /** The decimal digits of `n`, without leading zeros. */
  function Digits(n: nat): (s: string)
    ensures |s| > 0 && AllDigits(s)
  {
    if n < 10 then [DigitChar(n)] else Digits(n / 10) + [DigitChar(n % 10)]
  }

  /** Integer.toString: optional minus sign, then the digits. */
  function DecimalString(n: int): string
  {
    if n < 0 then "-" + Digits(-n) else Digits(n)
  }

  /** The value of a string of decimal digits (0 for the empty string). */
  function DigitsValue(s: string): nat
    requires AllDigits(s)
  {
    if s == [] then 0 else DigitsValue(s[..|s| - 1]) * 10 + DigitValue(s[|s| - 1])
  }

  /** A whole number: an optional sign and at least one decimal digit. */
  function ParseWhole(s: string): (r: Option<int>)
    ensures r.Some? ==> |s| > 0 && -(Pow10(|s| - 1) as int) < r.value < Pow10(|s|)
  {
    WholeBounds(s);
    if |s| > 1 && s[0] == '-' && AllDigits(s[1..]) then Some(-(DigitsValue(s[1..]) as int))
    else if |s| > 1 && s[0] == '+' && AllDigits(s[1..]) then Some(DigitsValue(s[1..]))
    else if |s| > 0 && AllDigits(s) then Some(DigitsValue(s))
    else None
  }

  const INT_MIN: int := -0x8000_0000
  const INT_MAX: int := 0x7FFF_FFFF

  /** Integer.parseInt: a whole number that fits in 32 bits, or
      NumberFormatException (None). */
  function ParseInt(s: string): (r: Option<int>)
    ensures r.Some? ==> INT_MIN <= r.value <= INT_MAX && ParseWhole(s) == r
  {
    match ParseWhole(s)
    case Some(v) => if INT_MIN <= v <= INT_MAX then Some(v) else None
    case None => None
  }

  lemma {:induction false} DigitsRoundTrip(n: nat)
    ensures DigitsValue(Digits(n)) == n
  {
    if n >= 10 {
      var s := Digits(n);
      assert s[..|s| - 1] == Digits(n / 10);
      DigitsRoundTrip(n / 10);
    }
  }

  /** Parsing the printed form of any integer gives it back. */
  lemma ParseWholeRoundTrip(n: int)
    ensures ParseWhole(DecimalString(n)) == Some(n)
  {
    DigitsRoundTrip(if n < 0 then -n else n);
    if n < 0 {
      assert DecimalString(n)[1..] == Digits(-n);
    }
  }

  lemma ParseIntRoundTrip(n: int)
    requires INT_MIN <= n <= INT_MAX
    ensures ParseInt(DecimalString(n)) == Some(n)
  {
    ParseWholeRoundTrip(n);
  }

  function Pow10(k: nat): nat
  {
    if k == 0 then 1 else 10 * Pow10(k - 1)
  }

  lemma {:induction false} Pow10Monotone(a: nat, b: nat)
    requires a <= b
    ensures 1 <= Pow10(a) <= Pow10(b)
    decreases b
  {
    if b > 0 {
      if a < b {
        Pow10Monotone(a, b - 1);
      } else {
        Pow10Monotone(a - 1, b - 1);
      }
    }
  }

  /** The bounds behind ParseWhole's contract: k digits, with or without a
      sign in front, stay below 10^k. */
  lemma WholeBounds(s: string)
    ensures AllDigits(s) ==> DigitsValue(s) < Pow10(|s|)
    ensures |s| > 0 && AllDigits(s[1..]) ==> DigitsValue(s[1..]) < Pow10(|s| - 1) <= Pow10(|s|)
  {
    DigitsValueBound(s);
    if |s| > 0 {
      DigitsValueBound(s[1..]);
      Pow10Monotone(|s| - 1, |s|);
    }
  }

  /** A string of k digits denotes a number below 10^k. */
  lemma {:induction false} DigitsValueBound(s: string)
    ensures AllDigits(s) ==> DigitsValue(s) < Pow10(|s|)
    decreases |s|
  {
    if s != [] && AllDigits(s) {
      var init := s[..|s| - 1];
      assert AllDigits(init) by {
        assert forall k :: 0 <= k < |init| ==> init[k] == s[k];
      }
      DigitsValueBound(init);
    }
  }

  /** A number below 10^k has at most k digits. */
  lemma {:induction false} DigitsLength(n: nat, k: nat)
    requires 1 <= k && n < Pow10(k)
    ensures |Digits(n)| <= k
  {
    if n >= 10 {
      assert k >= 2;
      DigitsLength(n / 10, k - 1);
    }
  }

  // ---------------------------------------------------------------------------
  // Scanner.nextDouble: the decimal floating-point token syntax
  // ---------------------------------------------------------------------------

  /** Where a recogniser of floating-point tokens is after some characters. */
  datatype NumberState =
    | Start                 // nothing read yet
    | Whole(digits: bool)   // after the sign, in the digits before any point
    | Fraction(digits: bool) // after the decimal point; `digits`: some digit read so far
    | ExponentSign          // just after `e` or `E`
    | Exponent(digits: bool) // in the exponent

  predicate IsSign(c: char)
  {
    c == '+' || c == '-'
  }

  predicate IsExponentMark(c: char)
  {
    c == 'e' || c == 'E'
  }

  /** One step of the recogniser; None rejects. */
  function NumberStep(st: NumberState, c: char): Option<NumberState>
  {
    match st
    case Start =>
      if IsSign(c) then Some(Whole(false))
      else if IsDigit(c) then Some(Whole(true))
      else if c == '.' then Some(Fraction(false))
      else None
    case Whole(d) =>
      if IsDigit(c) then Some(Whole(true))
      else if c == '.' then Some(Fraction(d))
      else if IsExponentMark(c) && d then Some(ExponentSign)
      else None
    case Fraction(d) =>
      if IsDigit(c) then Some(Fraction(true))
      else if IsExponentMark(c) && d then Some(ExponentSign)
      else None
    case ExponentSign =>
      if IsSign(c) then Some(Exponent(false))
      else if IsDigit(c) then Some(Exponent(true))
      else None
    case Exponent(_) =>
      if IsDigit(c) then Some(Exponent(true)) else None
  }

  /** The rest of a token is accepted from state `st`: the mantissa has at
      least one digit and an exponent, if any, has at least one digit. */
  predicate NumberFrom(st: NumberState, s: string)
    decreases |s|
  {
    if s == [] then st == Whole(true) || st == Fraction(true) || st == Exponent(true)
    else
      match NumberStep(st, s[0])
      case None => false
      case Some(next) => NumberFrom(next, s[1..])
  }

  /** A recognised token contains no whitespace. */
  lemma {:induction false} NumberFromNoSpace(st: NumberState, s: string)
    requires NumberFrom(st, s)
    ensures forall k :: 0 <= k < |s| ==> !IsSpace(s[k])
    decreases |s|
  {
    if s != [] {
      var next := NumberStep(st, s[0]).value;
      NumberFromNoSpace(next, s[1..]);
      forall k | 0 <= k < |s|
        ensures !IsSpace(s[k])
      {
        if k > 0 {
          assert s[k] == s[1..][k - 1];
        }
      }
    }
  }

  /** A token Scanner.nextDouble accepts: an optional sign, digits with an
      optional decimal point (at least one digit in all), then optionally `e`
      or `E`, an optional sign and at least one digit. */
  predicate IsDecimal(s: string)
    ensures IsDecimal(s) ==> |s| > 0 && (IsSign(s[0]) || IsDigit(s[0]) || s[0] == '.')
  {
    NumberFrom(Start, s)
  }

  /** Every floating-point token is a Scanner word. */
  lemma DecimalIsWord(s: string)
    requires IsDecimal(s)
    ensures IsWord(s)
  {
    NumberFromNoSpace(Start, s);
  }

  lemma {:induction false} DigitsFromWhole(s: string, d: bool)
    requires AllDigits(s) && (d || |s| > 0)
    ensures NumberFrom(Whole(d), s)
    decreases |s|
  {
    if s != [] {
      DigitsFromWhole(s[1..], true);
    }
  }

  /** Every printed integer is a valid floating-point token. */
  lemma DecimalStringIsNumberToken(n: int)
    ensures IsWord(DecimalString(n)) && IsDecimal(DecimalString(n))
  {
    var s := DecimalString(n);
    if n < 0 {
      assert s[1..] == Digits(-n);
      DigitsFromWhole(s[1..], false);
    } else {
      DigitsFromWhole(s[1..], true);
    }
    DecimalIsWord(s);
  }
}
