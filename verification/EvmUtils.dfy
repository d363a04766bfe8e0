/** Canonical EVM quantities and hashes (internal/utils/evm.go). */
module EvmUtils {
  import opened Wrappers

  const U64_LIMIT: nat := 0x1_0000_0000_0000_0000

  datatype QuantityError = MissingPrefix | LeadingZero | BadSyntax | OutOfRange

  predicate IsHexChar(c: char) {
    '0' <= c <= '9' || 'a' <= c <= 'f' || 'A' <= c <= 'F'
  }

  function DigitValue(c: char): (v: nat)
    requires IsHexChar(c)
    ensures v < 16
  {
    if c <= '9' then (c - '0') as nat
    else if c <= 'F' then (c - 'A') as nat + 10
    else (c - 'a') as nat + 10
  }

  function DigitChar(v: nat): (c: char)
    requires v < 16
    ensures IsHexChar(c) && DigitValue(c) == v && LowerChar(c) == c
    ensures c == '0' <==> v == 0
  {
    if v < 10 then '0' + v as char else 'a' + (v - 10) as char
  }

  function LowerChar(c: char): char {
    if 'A' <= c <= 'Z' then 'a' + (c - 'A') else c
  }

  function Lower(s: string): (r: string)
    ensures |r| == |s|
    ensures forall i | 0 <= i < |s| :: r[i] == LowerChar(s[i])
  {
    seq(|s|, i requires 0 <= i < |s| => LowerChar(s[i]))
  }

  // strconv.ParseUint in base 16 and 64 bits: digits are consumed from the left and the first
  // failure, be it an unknown digit or an overflow, is the one reported.
  function ParseDigits(s: string, acc: nat): (r: Result<nat, QuantityError>)
    ensures r.Ok? && acc < U64_LIMIT ==> r.value < U64_LIMIT
  {
    if s == "" then Ok(acc)
    else if !IsHexChar(s[0]) then Err(BadSyntax)
    else
      var next := acc * 16 + DigitValue(s[0]);
      if next >= U64_LIMIT then Err(OutOfRange) else ParseDigits(s[1..], next)
  }

  function ParseEVMQuantity(s: string): (r: Result<nat, QuantityError>)
    ensures r.Ok? ==> r.value < U64_LIMIT
  {
    if |s| < 3 || s[..2] != "0x" then Err(MissingPrefix)
    else if |s| > 3 && s[2] == '0' then Err(LeadingZero)
    else ParseDigits(s[2..], 0)
  }

  // The digits produced by the %x verb.
  function HexDigits(n: nat): (s: string)
    ensures |s| > 0
    ensures n > 0 ==> s[0] != '0'
    ensures n == 0 ==> s == "0"
  {
    if n < 16 then [DigitChar(n)] else HexDigits(n / 16) + [DigitChar(n % 16)]
  }

  function FormatEVMQuantity(n: nat): string {
    "0x" + HexDigits(n)
  }

  // A 32-byte 0x-prefixed hexadecimal value.
  predicate IsEVMHash(hash: string) {
    |hash| == 66 && hash[..2] == "0x" && forall i | 2 <= i < 66 :: IsHexChar(hash[i])
  }

  /******* Round trips *******/

  const LOWER_DIGITS: string := "0123456789abcdef"
  const UPPER_DIGITS: string := "0123456789ABCDEF"

  /** The digits are the sixteen hexadecimal ones, in either case, written in lower case, with their values. */
  lemma DigitsAreHexadecimal(c: char, v: nat)
    requires v < 16
    ensures DigitChar(v) == LOWER_DIGITS[v] && LowerChar(UPPER_DIGITS[v]) == LOWER_DIGITS[v]
    ensures IsHexChar(c) <==> c in LOWER_DIGITS || c in UPPER_DIGITS
    ensures IsHexChar(c) && DigitValue(c) == v <==> c == LOWER_DIGITS[v] || c == UPPER_DIGITS[v]
  {
  }

  /** A hash is 0x and sixty-four hexadecimal digits. */
  lemma HashesAreHexadecimal(hash: string)
    ensures IsEVMHash(hash) <==>
              && |hash| == 66 && hash[0] == '0' && hash[1] == 'x'
              && forall i | 2 <= i < 66 :: hash[i] in LOWER_DIGITS || hash[i] in UPPER_DIGITS
  {
    if |hash| == 66 {
      forall i | 2 <= i < 66
        ensures IsHexChar(hash[i]) <==> hash[i] in LOWER_DIGITS || hash[i] in UPPER_DIGITS
      {
        DigitsAreHexadecimal(hash[i], 0);
      }
    }
  }

  // Parsing in two pieces: the value of the left piece is the accumulator of the right one.
  lemma {:induction false} ParseAppend(a: string, b: string, acc: nat)
    ensures ParseDigits(a, acc).Ok? ==> ParseDigits(a + b, acc) == ParseDigits(b, ParseDigits(a, acc).value)
    ensures ParseDigits(a, acc).Err? ==> ParseDigits(a + b, acc) == ParseDigits(a, acc)
  {
    if a == "" {
      assert a + b == b;
    } else {
      assert (a + b)[0] == a[0] && (a + b)[1..] == a[1..] + b;
      if IsHexChar(a[0]) {
        ParseAppend(a[1..], b, acc * 16 + DigitValue(a[0]));
      }
    }
  }

  lemma {:induction false} ParseHexDigits(n: nat)
    requires n < U64_LIMIT
    ensures ParseDigits(HexDigits(n), 0) == Ok(n)
  {
    if n < 16 {
      assert [DigitChar(n)][1..] == "";
    } else {
      ParseHexDigits(n / 16);
      ParseAppend(HexDigits(n / 16), [DigitChar(n % 16)], 0);
      assert [DigitChar(n % 16)][1..] == "";
    }
  }

  /** Every unsigned 64-bit number survives being formatted and parsed again. */
  lemma QuantityRoundTrip(n: nat)
    requires n < U64_LIMIT
    ensures ParseEVMQuantity(FormatEVMQuantity(n)) == Ok(n)
  {
    var s := FormatEVMQuantity(n);
    assert s[..2] == "0x" && s[2..] == HexDigits(n);
    ParseHexDigits(n);
    if n == 0 {
      assert |s| == 3;
    }
  }

  // A non-empty digit string whose first digit is not zero has a positive value.
  lemma {:induction false} ParsePositive(s: string, acc: nat)
    requires s != "" && ParseDigits(s, acc).Ok?
    requires acc > 0 || DigitValue(s[0]) > 0
    ensures ParseDigits(s, acc).value > 0
  {
    if |s| > 1 {
      ParsePositive(s[1..], acc * 16 + DigitValue(s[0]));
    } else {
      assert s[1..] == "";
    }
  }

  lemma ParseOne(c: char, acc: nat)
    ensures ParseDigits([c], acc).Ok? ==> IsHexChar(c) && ParseDigits([c], acc) == Ok(acc * 16 + DigitValue(c))
  {
  }

  lemma ParseLast(front: string, c: char)
    requires ParseDigits(front + [c], 0).Ok?
    ensures IsHexChar(c) && ParseDigits(front, 0).Ok?
    ensures ParseDigits(front + [c], 0) == Ok(ParseDigits(front, 0).value * 16 + DigitValue(c))
  {
    hide ParseDigits, DigitValue, IsHexChar;
    ParseAppend(front, [c], 0);
    ParseOne(c, ParseDigits(front, 0).value);
  }

  lemma HexDigitsLast(m: nat, d: nat)
    requires m > 0 && d < 16
    ensures HexDigits(m * 16 + d) == HexDigits(m) + [DigitChar(d)]
  {
  }

  lemma CanonicalDigit(c: char)
    requires IsHexChar(c)
    ensures LowerChar(c) == DigitChar(DigitValue(c))
    ensures c == '0' <==> DigitValue(c) == 0
  {
  }

  lemma {:induction false} FormatParsedDigits(s: string)
    requires s != "" && ParseDigits(s, 0).Ok?
    requires |s| > 1 ==> s[0] != '0'
    ensures HexDigits(ParseDigits(s, 0).value) == Lower(s)
  {
    var front, c := s[..|s| - 1], s[|s| - 1];
    assert s == front + [c];
    ParseLast(front, c);
    CanonicalDigit(c);
    hide DigitChar, LowerChar, DigitValue, IsHexChar;
    assert Lower(s) == Lower(front) + [LowerChar(c)];
    if front != "" {
      ParsePositive(front, 0);
      hide ParseDigits;
      FormatParsedDigits(front);
      HexDigitsLast(ParseDigits(front, 0).value, DigitValue(c));
      hide HexDigits;
    }
  }

  /** Formatting whatever the parser accepted returns the input in lower case. */
  lemma FormatParsedQuantity(s: string)
    requires ParseEVMQuantity(s).Ok?
    ensures FormatEVMQuantity(ParseEVMQuantity(s).value) == Lower(s)
  {
    FormatParsedDigits(s[2..]);
    assert s == "0x" + s[2..];
    assert Lower(s) == "0x" + Lower(s[2..]);
  }

  lemma {:induction false} ParseIgnoresCase(s: string, acc: nat)
    ensures ParseDigits(Lower(s), acc) == ParseDigits(s, acc)
  {
    if s != "" {
      assert Lower(s)[1..] == Lower(s[1..]);
      if IsHexChar(s[0]) {
        assert DigitValue(LowerChar(s[0])) == DigitValue(s[0]);
        ParseIgnoresCase(s[1..], acc * 16 + DigitValue(s[0]));
      }
    }
  }

  /** The accepted strings are exactly the canonical renderings of 64-bit numbers, up to digit case:
      leading zeros, empty digits, foreign characters and overflows are the rejected ones. */
  lemma AcceptedQuantities(s: string)
    ensures ParseEVMQuantity(s).Ok?
       <==> |s| >= 2 && s[..2] == "0x" && exists n: nat | n < U64_LIMIT :: Lower(s) == FormatEVMQuantity(n)
  {
    if ParseEVMQuantity(s).Ok? {
      FormatParsedQuantity(s);
      assert Lower(s) == FormatEVMQuantity(ParseEVMQuantity(s).value);
    }
    if |s| >= 2 && s[..2] == "0x" && exists n: nat | n < U64_LIMIT :: Lower(s) == FormatEVMQuantity(n) {
      var n: nat :| n < U64_LIMIT && Lower(s) == FormatEVMQuantity(n);
      assert Lower(s)[2..] == Lower(s[2..]) == HexDigits(n);
      ParseHexDigits(n);
      ParseIgnoresCase(s[2..], 0);
      assert |s| > 3 ==> s[2] != '0' by {
        assert LowerChar(s[2]) == HexDigits(n)[0];
      }
    }
  }
}
