/**
 * The pieces of the C library the orchestrator relies on when it handles
 * text: `strstr` (substring search on program paths), `isspace`, `atoi`
 * and the `%d` conversion the telemetry generator writes with.
 * Strings are sequences of `char`.
 */
module CText {

  /** `strstr(hay, needle) != NULL`: `needle` occurs somewhere in `hay`. */
  function Contains(hay: string, needle: string): bool
    decreases |hay|
  {
    needle <= hay || (hay != [] && Contains(hay[1..], needle))
  }

  /** `needle` occurs in `hay` starting at position `i`. */
  ghost predicate OccursAt(hay: string, needle: string, i: int)
  {
    0 <= i && i + |needle| <= |hay| && hay[i..i + |needle|] == needle
  }

  /** An occurrence in the tail of `hay` is an occurrence in `hay` one position further on. */
  lemma OccursAtShift(hay: string, needle: string, i: int)
    requires hay != [] && i >= 0
    ensures OccursAt(hay[1..], needle, i) <==> OccursAt(hay, needle, i + 1)
  {
    if i + 1 + |needle| <= |hay| {
      assert hay[1..][i..i + |needle|] == hay[i + 1..i + 1 + |needle|];
    }
  }

  /** The recursive search agrees with the positional definition of a substring. */
  lemma {:induction false} ContainsIffOccurs(hay: string, needle: string)
    ensures Contains(hay, needle) <==> exists i :: OccursAt(hay, needle, i)
    decreases |hay|
  {
    if needle <= hay {
      assert OccursAt(hay, needle, 0);
    } else if hay != [] {
      ContainsIffOccurs(hay[1..], needle);
      if exists i :: OccursAt(hay[1..], needle, i) {
        var i :| OccursAt(hay[1..], needle, i);
        OccursAtShift(hay, needle, i);
      }
      if exists i :: OccursAt(hay, needle, i) {
        var i :| OccursAt(hay, needle, i);
        assert !OccursAt(hay, needle, 0);
        OccursAtShift(hay, needle, i - 1);
      }
    } else {
      assert forall i :: !OccursAt(hay, needle, i);
    }
  }

  predicate IsDigit(c: char)
  {
    '0' <= c <= '9'
  }

  /** `isspace` in the C locale: space, \t, \n, \v, \f, \r. */
  predicate IsSpace(c: char)
  {
    c == ' ' || c == '\t' || c == '\n' || c == '\U{000B}' || c == '\U{000C}' || c == '\r'
  }

  function DigitValue(c: char): int
  {
    c as int - '0' as int
  }

  function DigitChar(d: nat): (c: char)
    requires d < 10
    ensures IsDigit(c) && DigitValue(c) == d
  {
    ('0' as int + d) as char
  }

  predicate AllDigits(s: string)
  {
    forall i :: 0 <= i < |s| ==> IsDigit(s[i])
  }

  /** The longest prefix of `s` made of decimal digits. */
  function DigitRun(s: string): (r: string)
    ensures r <= s && AllDigits(r)
    ensures |r| < |s| ==> !IsDigit(s[|r|])
  {
    if s != [] && IsDigit(s[0]) then [s[0]] + DigitRun(s[1..]) else []
  }

  /** The value of a string of digits read in base 10, most significant first. */
  function DigitsValue(d: string): int
  {
    if d == [] then 0 else DigitsValue(d[..|d| - 1]) * 10 + DigitValue(d[|d| - 1])
  }

  /**
   * `atoi`: leading white space is skipped, then one optional sign, then the
   * longest run of decimal digits is converted; anything else ends the number
   * and a string without digits yields 0. C's `int` range is not imposed
   * (an out-of-range `atoi` is undefined behaviour in C).
   */
  function Atoi(s: string): int
    decreases |s|
  {
    if s == [] then 0
    else if IsSpace(s[0]) then Atoi(s[1..])
    else if s[0] == '-' then -DigitsValue(DigitRun(s[1..]))
    else if s[0] == '+' then DigitsValue(DigitRun(s[1..]))
    else DigitsValue(DigitRun(s))
  }

  /** The digits of `n` in base 10, most significant first, no leading zeros. */
  function NatDigits(n: nat): (r: string)
    ensures r != [] && AllDigits(r)
  {
    if n < 10 then [DigitChar(n)] else NatDigits(n / 10) + [DigitChar(n % 10)]
  }

  /** `printf("%d", n)`. */
  function Decimal(n: int): (r: string)
    ensures r != [] && !IsSpace(r[0])
  {
    if n < 0 then "-" + NatDigits(-n) else NatDigits(n)
  }

  /** The digits of `n` read back in base 10 are `n`. */
  lemma {:induction false} DigitsValueOfNatDigits(n: nat)
    ensures DigitsValue(NatDigits(n)) == n
  {
    if n >= 10 {
      var d := NatDigits(n);
      assert d[..|d| - 1] == NatDigits(n / 10);
      DigitsValueOfNatDigits(n / 10);
    }
  }

  /** A run of digits followed by a non-digit (or nothing) is read up to that non-digit. */
  lemma {:induction false} DigitRunStopsAt(d: string, rest: string)
    requires AllDigits(d)
    requires rest == [] || !IsDigit(rest[0])
    ensures DigitRun(d + rest) == d
  {
    if d != [] {
      assert (d + rest)[1..] == d[1..] + rest;
      DigitRunStopsAt(d[1..], rest);
    } else {
      assert d + rest == rest;
    }
  }

  /** `atoi` of a digit run that starts the string is the run's value. */
  lemma {:induction false} AtoiOfDigits(d: string, rest: string)
    requires d != [] && AllDigits(d)
    requires rest == [] || !IsDigit(rest[0])
    ensures Atoi(d + rest) == DigitsValue(d)
  {
    DigitRunStopsAt(d, rest);
    var s := d + rest;
    assert s[0] == d[0] && IsDigit(s[0]);
    assert !IsSpace(s[0]) && s[0] != '-' && s[0] != '+';
  }

  /** `atoi` of a minus sign followed by a digit run is the negated value of the run. */
  lemma {:induction false} AtoiOfNegative(d: string, rest: string)
    requires d != [] && AllDigits(d)
    requires rest == [] || !IsDigit(rest[0])
    ensures Atoi("-" + d + rest) == -DigitsValue(d)
  {
    DigitRunStopsAt(d, rest);
    var s := "-" + d + rest;
    assert s[1..] == d + rest;
  }

  /** `atoi` reads back what `%d` wrote, whatever non-digit text follows it. */
  lemma {:induction false} AtoiOfDecimal(n: int, rest: string)
    requires rest == [] || !IsDigit(rest[0])
    ensures Atoi(Decimal(n) + rest) == n
  {
    if n < 0 {
      AtoiOfNegative(NatDigits(-n), rest);
      DigitsValueOfNatDigits(-n);
    } else {
      AtoiOfDigits(NatDigits(n), rest);
      DigitsValueOfNatDigits(n);
    }
  }

  /** Appending a non-digit after the number never changes what `DigitRun` reads. */
  lemma {:induction false} DigitRunSnoc(s: string, c: char)
    requires !IsDigit(c)
    ensures DigitRun(s + [c]) == DigitRun(s)
  {
    if s != [] {
      assert (s + [c])[1..] == s[1..] + [c];
      if IsDigit(s[0]) {
        DigitRunSnoc(s[1..], c);
      }
    }
  }

  /** A trailing non-digit character, such as a newline, never changes the value `atoi` reads. */
  lemma {:induction false} AtoiIgnoresTrailingNonDigit(s: string, c: char)
    requires !IsDigit(c)
    ensures Atoi(s + [c]) == Atoi(s)
    decreases |s|
  {
    if s == [] {
      assert [] + [c] == [c];
      assert [c][1..] == [];
    } else {
      assert (s + [c])[1..] == s[1..] + [c];
      if IsSpace(s[0]) {
        AtoiIgnoresTrailingNonDigit(s[1..], c);
      } else if s[0] == '-' || s[0] == '+' {
        DigitRunSnoc(s[1..], c);
      } else {
        DigitRunSnoc(s, c);
      }
    }
  }
}
