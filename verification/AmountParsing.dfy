/**
 * The lenient amount reading used when the report is written: strip every
 * code unit that is not a digit, '.' or '-', then parse the rest as a
 * Java `double` literal.
 *
 * After stripping, the only literals `Double.parseDouble` can accept are
 * an optional '-', digits, and at most one '.', with at least one digit;
 * exponents, suffixes, signs '+', hexadecimal forms, "NaN" and
 * "Infinity" cannot survive the stripping. `ParseDecimal` is that
 * grammar, valued exactly as a real (no rounding to the nearest double).
 */
module AmountParsing {
  import opened Wrappers

  predicate IsDigit(c: char) { '0' <= c <= '9' }

  /** The code units the character class `[^0-9.-]` does not remove. */
  predicate IsAmountChar(c: char) { IsDigit(c) || c == '.' || c == '-' }

  predicate AllDigits(s: string) { forall k :: 0 <= k < |s| ==> IsDigit(s[k]) }

  /** `replaceAll("[^0-9.-]", "")`: only digits, '.' and '-' remain. */
  function Clean(s: string): string {
    if s == [] then [] else (if IsAmountChar(s[0]) then [s[0]] else []) + Clean(s[1..])
  }

  /** Cleaning only shortens, and leaves only digits, '.' and '-'. */
  lemma {:induction false} CleanLeavesAmountChars(s: string)
    ensures |Clean(s)| <= |s|
    ensures forall k :: 0 <= k < |Clean(s)| ==> IsAmountChar(Clean(s)[k])
  {
    if s != [] {
      CleanLeavesAmountChars(s[1..]);
    }
  }

  /** Every digit, '.' and '-' is kept as many times as it occurs, and nothing else is. */
  lemma {:induction false} CleanKeepsExactly(s: string, c: char)
    ensures multiset(Clean(s))[c] == if IsAmountChar(c) then multiset(s)[c] else 0
  {
    if s != [] {
      CleanKeepsExactly(s[1..], c);
      assert s == [s[0]] + s[1..];
    }
  }

  /** Cleaning distributes over concatenation. */
  lemma {:induction false} CleanConcat(a: string, b: string)
    ensures Clean(a + b) == Clean(a) + Clean(b)
  {
    if a == [] {
      assert a + b == b;
    } else {
      var kept := if IsAmountChar(a[0]) then [a[0]] else [];
      assert (a + b)[0] == a[0] && (a + b)[1..] == a[1..] + b;
      assert Clean(a + b) == kept + Clean(a[1..] + b);
      CleanConcat(a[1..], b);
      assert kept + (Clean(a[1..]) + Clean(b)) == (kept + Clean(a[1..])) + Clean(b);
    }
  }

  /** A string made only of kept code units is left as it is. */
  lemma {:induction false} CleanKeepsAmountText(s: string)
    requires forall k :: 0 <= k < |s| ==> IsAmountChar(s[k])
    ensures Clean(s) == s
  {
    if s != [] {
      CleanKeepsAmountText(s[1..]);
    }
  }

  /** A string without digits, '.' or '-' cleans to nothing. */
  lemma {:induction false} CleanDropsText(s: string)
    requires forall k :: 0 <= k < |s| ==> !IsAmountChar(s[k])
    ensures Clean(s) == []
  {
    if s != [] {
      CleanDropsText(s[1..]);
    }
  }

  /** Cleaning twice is cleaning once. */
  lemma CleanIdempotent(s: string)
    ensures Clean(Clean(s)) == Clean(s)
  {
    CleanLeavesAmountChars(s);
    CleanKeepsAmountText(Clean(s));
  }

  /** `a` is obtained from `b` by deleting code units, the rest in order. */
  predicate IsSubsequence(a: string, b: string) {
    if a == [] then true
    else if b == [] then false
    else (a[0] == b[0] && IsSubsequence(a[1..], b[1..])) || IsSubsequence(a, b[1..])
  }

  /** Cleaning only deletes: the kept code units appear in their original order. */
  lemma {:induction false} CleanIsSubsequence(s: string)
    ensures IsSubsequence(Clean(s), s)
  {
    if s != [] {
      CleanIsSubsequence(s[1..]);
      if !IsAmountChar(s[0]) {
        assert Clean(s) == Clean(s[1..]);
        if Clean(s) != [] {
          assert IsSubsequence(Clean(s), s[1..]);
        }
      } else {
        assert Clean(s) == [s[0]] + Clean(s[1..]);
        assert Clean(s)[1..] == Clean(s[1..]);
      }
    }
  }

  function DigitValue(c: char): nat
    requires IsDigit(c)
  {
    (c as int - '0' as int) as nat
  }

  /** The value of a string of decimal digits, most significant first. */
  function DigitsValue(d: string): nat
    requires AllDigits(d)
  {
    if d == [] then 0 else DigitsValue(d[..|d| - 1]) * 10 + DigitValue(d[|d| - 1])
  }

  /** The value of the digits after a decimal point: `0.d1d2...` is `(d1 + 0.d2...) / 10`. */
  function FractionValue(d: string): real
    requires AllDigits(d)
  {
    if d == [] then 0.0 else (DigitValue(d[0]) as real + FractionValue(d[1..])) / 10.0
  }

  /** The position of the first `c` in `s`, or `|s|` if there is none. */
  function IndexOf(s: string, c: char): (i: nat)
    ensures i <= |s|
  {
    if s == [] || s[0] == c then 0 else 1 + IndexOf(s[1..], c)
  }

  /** Short of the end, `IndexOf` stops on an occurrence of `c`. */
  lemma {:induction false} IndexOfFound(s: string, c: char)
    ensures IndexOf(s, c) < |s| ==> s[IndexOf(s, c)] == c
  {
    if s != [] && s[0] != c {
      IndexOfFound(s[1..], c);
    }
  }

  /** The value of the digits `intDigits` '.' `fracDigits`. */
  function Magnitude(intDigits: string, fracDigits: string): real
    requires AllDigits(intDigits) && AllDigits(fracDigits)
  {
    DigitsValue(intDigits) as real + FractionValue(fracDigits)
  }

  /** An unsigned literal: digits, then optionally '.' and digits, with at least one digit. */
  function ParseUnsigned(s: string): Option<real>
  {
    var p := IndexOf(s, '.');
    var intDigits := s[..p];
    var fracDigits := if p < |s| then s[p + 1..] else [];
    if AllDigits(intDigits) && AllDigits(fracDigits) && |intDigits| + |fracDigits| > 0 then
      Some(Magnitude(intDigits, fracDigits))
    else None
  }

  /** `Double.parseDouble` on a cleaned amount: an optional '-' then an unsigned literal. */
  function ParseDecimal(s: string): Option<real>
  {
    if s != [] && s[0] == '-' then
      match ParseUnsigned(s[1..])
      case Some(v) => Some(-v)
      case None => None
    else ParseUnsigned(s)
  }

  /** How an unsigned literal is written. */
  function UnsignedText(intDigits: string, point: bool, fracDigits: string): string {
    intDigits + (if point then "." + fracDigits else "")
  }

  /** The parts of a literal `ParseDecimal` accepts. */
  datatype DecimalLiteral = DecimalLiteral(negative: bool, intDigits: string, point: bool, fracDigits: string)
  {
    predicate Valid() {
      AllDigits(intDigits) && AllDigits(fracDigits) && |intDigits| + |fracDigits| > 0
      && (!point ==> fracDigits == [])
    }

    /** How the literal is written. */
    function Text(): string {
      (if negative then "-" else "") + UnsignedText(intDigits, point, fracDigits)
    }

    /** What the literal denotes. */
    function Value(): real
      requires Valid()
    {
      var magnitude := Magnitude(intDigits, fracDigits);
      if negative then -magnitude else magnitude
    }
  }

  /** An unsigned literal's text parses to its magnitude. */
  lemma ParseUnsignedOfParts(intDigits: string, point: bool, fracDigits: string)
    requires AllDigits(intDigits) && AllDigits(fracDigits) && |intDigits| + |fracDigits| > 0
    requires !point ==> fracDigits == []
    ensures ParseUnsigned(UnsignedText(intDigits, point, fracDigits))
         == Some(Magnitude(intDigits, fracDigits))
  {
    var u := UnsignedText(intDigits, point, fracDigits);
    var rest := if point then "." + fracDigits else "";
    assert u == intDigits + rest;
    IndexOfAfterDigits(intDigits, rest);
    assert u[..|intDigits|] == intDigits;
    if point {
      assert u[|intDigits| + 1..] == fracDigits;
    }
  }

  /** The first '.' after a run of digits is where the run ends. */
  lemma {:induction false} IndexOfAfterDigits(d: string, rest: string)
    requires AllDigits(d)
    requires rest == [] || rest[0] == '.'
    ensures IndexOf(d + rest, '.') == |d|
  {
    if d != [] {
      assert (d + rest)[0] == d[0] && (d + rest)[1..] == d[1..] + rest;
      IndexOfAfterDigits(d[1..], rest);
    } else {
      assert d + rest == rest;
    }
  }

  /** Every well-formed literal parses, to the value it denotes. */
  lemma ParseDecimalOfLiteral(lit: DecimalLiteral)
    requires lit.Valid()
    ensures ParseDecimal(lit.Text()) == Some(lit.Value())
  {
    ParseUnsignedOfParts(lit.intDigits, lit.point, lit.fracDigits);
    UnsignedTextStart(lit.intDigits, lit.point, lit.fracDigits);
    var u := UnsignedText(lit.intDigits, lit.point, lit.fracDigits);
    if lit.negative {
      ParseNegated(u);
    } else {
      assert lit.Text() == u;
    }
  }

  /** An unsigned literal starts with a digit or the point, never with '-'. */
  lemma UnsignedTextStart(intDigits: string, point: bool, fracDigits: string)
    requires AllDigits(intDigits) && |intDigits| + |fracDigits| > 0
    requires !point ==> fracDigits == []
    ensures UnsignedText(intDigits, point, fracDigits) != []
    ensures UnsignedText(intDigits, point, fracDigits)[0] != '-'
  {
    var u := UnsignedText(intDigits, point, fracDigits);
    if intDigits != [] {
      assert u[0] == intDigits[0];
    } else {
      assert u[0] == '.';
    }
  }

  /** A leading '-' negates what the unsigned rest parses to. */
  lemma ParseNegated(u: string)
    requires ParseUnsigned(u).Some?
    ensures ParseDecimal("-" + u) == Some(-ParseUnsigned(u).value)
  {
    assert ("-" + u)[1..] == u;
  }

  /** An accepted unsigned literal splits into its digits around the point. */
  lemma ParseUnsignedSound(u: string) returns (point: bool, intDigits: string, fracDigits: string)
    requires ParseUnsigned(u).Some?
    ensures AllDigits(intDigits) && AllDigits(fracDigits) && |intDigits| + |fracDigits| > 0
    ensures !point ==> fracDigits == []
    ensures u == UnsignedText(intDigits, point, fracDigits)
    ensures ParseUnsigned(u)
         == Some(Magnitude(intDigits, fracDigits))
  {
    var p := IndexOf(u, '.');
    point := p < |u|;
    intDigits := u[..p];
    fracDigits := if point then u[p + 1..] else [];
    IndexOfFound(u, '.');
    SplitAround(u, p);
  }

  /** A string is its part before position `p`, the code unit at `p` if any, and the rest. */
  lemma SplitAround(u: string, p: nat)
    requires p <= |u|
    ensures p < |u| ==> u == u[..p] + [u[p]] + u[p + 1..]
    ensures p == |u| ==> u == u[..p]
  {
  }

  /** Every accepted string is a well-formed literal, parsed to its value. */
  lemma ParseDecimalSound(s: string) returns (lit: DecimalLiteral)
    requires ParseDecimal(s).Some?
    ensures lit.Valid() && lit.Text() == s && ParseDecimal(s) == Some(lit.Value())
  {
    if s != [] && s[0] == '-' {
      var u := s[1..];
      assert ParseUnsigned(u).Some?;
      var point, intDigits, fracDigits := ParseUnsignedSound(u);
      lit := DecimalLiteral(true, intDigits, point, fracDigits);
      assert lit.Text() == "-" + u;
      assert s == [s[0]] + u;
    } else {
      assert ParseDecimal(s) == ParseUnsigned(s);
      var point, intDigits, fracDigits := ParseUnsignedSound(s);
      lit := DecimalLiteral(false, intDigits, point, fracDigits);
      assert lit.Text() == [] + s;
    }
    ParseDecimalOfLiteral(lit);
  }

  /** The empty string is not a number: a cell that cleans to nothing is rejected. */
  lemma ParseDecimalRejectsEmpty()
    ensures ParseDecimal("") == None
  {
    assert IndexOf("", '.') == 0;
  }
}
