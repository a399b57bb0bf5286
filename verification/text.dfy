/** Text primitives the program borrows from Rust's standard library:
    `str::split` on one character, `join`, `str::lines`, and the decimal
    integer parser behind `str::parse::<i32>()` / `str::parse::<u64>()`,
    together with a decimal renderer that serves as the parser's inverse. */
module Text {
  import opened Results

  // ---------------------------------------------------------------------
  // Splitting and joining on one separator character
  // ---------------------------------------------------------------------

  /** Joins pieces with `sep` between consecutive pieces (Rust's `join`). */
  function JoinWith(pieces: seq<string>, sep: char): string
  {
    if |pieces| == 0 then ""
    else if |pieces| == 1 then pieces[0]
    else pieces[0] + [sep] + JoinWith(pieces[1..], sep)
  }

  /** Rust's `s.split(sep)`: always at least one piece, no piece holds the
      separator, and joining the pieces back gives `s`. */
  function SplitOn(s: string, sep: char): (r: seq<string>)
    ensures |r| >= 1
    ensures forall i :: 0 <= i < |r| ==> sep !in r[i]
    ensures JoinWith(r, sep) == s
  {
    if |s| == 0 then [""]
    else
      var rest := SplitOn(s[1..], sep);
      if s[0] == sep then
        assert s == [sep] + s[1..];
        [""] + rest
      else
        var r := [[s[0]] + rest[0]] + rest[1..];
        assert r[1..] == rest[1..];
        assert s == [s[0]] + s[1..];
        r
  }

  /** A join starts with its first piece and ends with its last. */
  lemma {:induction false} JoinWithEnds(pieces: seq<string>, sep: char)
    requires |pieces| >= 1
    ensures pieces[0] <= JoinWith(pieces, sep)
    ensures |pieces[|pieces| - 1]| <= |JoinWith(pieces, sep)|
    ensures JoinWith(pieces, sep)[|JoinWith(pieces, sep)| - |pieces[|pieces| - 1]|..] == pieces[|pieces| - 1]
    decreases |pieces|
  {
    if |pieces| > 1 {
      JoinWithEnds(pieces[1..], sep);
      var rest := JoinWith(pieces[1..], sep);
      var whole := pieces[0] + [sep] + rest;
      assert whole[|whole| - |rest|..] == rest;
      assert whole[..|pieces[0]|] == pieces[0];
    }
  }

  lemma {:induction false} SplitPrefix(p: string, sep: char, t: string)
    requires sep !in p
    ensures SplitOn(p + [sep] + t, sep) == [p] + SplitOn(t, sep)
    decreases |p|
  {
    if |p| == 0 {
      assert p + [sep] + t == [sep] + t;
      assert ([sep] + t)[1..] == t;
    } else {
      var s := p + [sep] + t;
      assert s[1..] == p[1..] + [sep] + t;
      SplitPrefix(p[1..], sep, t);
      assert [p[0]] + p[1..] == p;
    }
  }

  /** Splitting inverts joining, provided no piece holds the separator. */
  lemma {:induction false} SplitJoin(pieces: seq<string>, sep: char)
    requires |pieces| >= 1
    requires forall i :: 0 <= i < |pieces| ==> sep !in pieces[i]
    ensures SplitOn(JoinWith(pieces, sep), sep) == pieces
    decreases |pieces|
  {
    if |pieces| == 1 {
      var p := pieces[0];
      SplitNoSep(p, sep);
    } else {
      SplitJoin(pieces[1..], sep);
      SplitPrefix(pieces[0], sep, JoinWith(pieces[1..], sep));
      assert [pieces[0]] + pieces[1..] == pieces;
    }
  }

  lemma {:induction false} SplitNoSep(p: string, sep: char)
    requires sep !in p
    ensures SplitOn(p, sep) == [p]
    decreases |p|
  {
    if |p| > 0 {
      SplitNoSep(p[1..], sep);
      assert [p[0]] + p[1..] == p;
    }
  }

  // ---------------------------------------------------------------------
  // Rust's `str::lines`
  // ---------------------------------------------------------------------

  function StripCarriageReturn(line: string): string
  {
    if |line| > 0 && line[|line| - 1] == '\r' then line[..|line| - 1] else line
  }

  /** Every piece followed by a `\n` loses one trailing `\r`; a final empty
      piece (the text ends with a line feed, or is empty) yields no line. */
  function Lines(s: string): (r: seq<string>)
    ensures forall i :: 0 <= i < |r| ==> '\n' !in r[i]
  {
    var pieces := SplitOn(s, '\n');
    var terminated := seq(|pieces| - 1, i requires 0 <= i < |pieces| - 1 => StripCarriageReturn(pieces[i]));
    var last := pieces[|pieces| - 1];
    if last == "" then terminated else terminated + [last]
  }

  predicate NoLineBreaks(lines: seq<string>)
  {
    forall i :: 0 <= i < |lines| ==> '\n' !in lines[i] && StripCarriageReturn(lines[i]) == lines[i]
  }

  /** Text made of lines each followed by a line feed reads back as exactly
      those lines. */
  lemma LinesOfTerminated(lines: seq<string>)
    requires NoLineBreaks(lines)
    ensures Lines(JoinWith(lines + [""], '\n')) == lines
  {
    var all := lines + [""];
    assert forall i :: 0 <= i < |all| ==> '\n' !in all[i] by {
      forall i | 0 <= i < |all| ensures '\n' !in all[i] {
        if i < |lines| { assert all[i] == lines[i]; }
      }
    }
    SplitJoin(all, '\n');
  }

  // ---------------------------------------------------------------------
  // Decimal integers
  // ---------------------------------------------------------------------

  predicate IsDigit(c: char)
  {
    '0' <= c <= '9'
  }

  function DigitValue(c: char): nat
    requires IsDigit(c)
  {
    (c as int) - ('0' as int)
  }

  function DigitChar(d: nat): (c: char)
    requires d < 10
    ensures IsDigit(c) && DigitValue(c) == d
  {
    (('0' as int) + d) as char
  }

  predicate AllDigits(s: string)
  {
    forall i :: 0 <= i < |s| ==> IsDigit(s[i])
  }

  /** Left-to-right decimal accumulation, as the parser performs it. */
  function Accumulate(ds: string, acc: int): int
    requires AllDigits(ds)
  {
    if |ds| == 0 then acc else Accumulate(ds[1..], acc * 10 + DigitValue(ds[0]))
  }

  function DecimalValue(ds: string): int
    requires AllDigits(ds)
  {
    Accumulate(ds, 0)
  }

  /** An optional sign (a `-` only for signed targets) followed by at least
      one digit: the only texts the integer parser accepts. */
  predicate IsNumeral(s: string, signed: bool)
  {
    if |s| > 0 && (s[0] == '+' || (signed && s[0] == '-')) then |s| > 1 && AllDigits(s[1..])
    else |s| > 0 && AllDigits(s)
  }

  function NumeralValue(s: string, signed: bool): int
    requires IsNumeral(s, signed)
  {
    if s[0] == '+' then DecimalValue(s[1..])
    else if s[0] == '-' then -DecimalValue(s[1..])
    else DecimalValue(s)
  }

  datatype IntError = Empty | InvalidDigit | PosOverflow | NegOverflow

  function ParseDigits(ds: string, acc: int, negative: bool, lo: int, hi: int): Result<int, IntError>
    decreases |ds|
  {
    if |ds| == 0 then Ok(acc)
    else if !IsDigit(ds[0]) then Err(InvalidDigit)
    else
      var next := if negative then acc * 10 - DigitValue(ds[0]) else acc * 10 + DigitValue(ds[0]);
      if next < lo then Err(NegOverflow)
      else if hi < next then Err(PosOverflow)
      else ParseDigits(ds[1..], next, negative, lo, hi)
  }

  /** `str::parse` into an integer type with range [lo, hi]: a leading `+`
      is allowed, a leading `-` only when the type is signed, and the value
      is accumulated digit by digit with overflow checks. */
  function ParseInteger(s: string, lo: int, hi: int): (r: Result<int, IntError>)
    requires lo <= 0 <= hi
    ensures r.Ok? <==> IsNumeral(s, lo < 0) && lo <= NumeralValue(s, lo < 0) <= hi
    ensures r.Ok? ==> r.value == NumeralValue(s, lo < 0)
  {
    if |s| == 0 then Err(Empty)
    else if (s[0] == '+' || s[0] == '-') && |s| == 1 then Err(InvalidDigit)
    else if s[0] == '+' then
      ParseDigitsMeaning(s[1..], 0, false, lo, hi);
      ParseDigits(s[1..], 0, false, lo, hi)
    else if s[0] == '-' && lo < 0 then
      ParseDigitsMeaning(s[1..], 0, true, lo, hi);
      ParseDigits(s[1..], 0, true, lo, hi)
    else
      ParseDigitsMeaning(s, 0, false, lo, hi);
      ParseDigits(s, 0, false, lo, hi)
  }

  lemma {:induction false} AccumulateGrows(ds: string, acc: int)
    requires AllDigits(ds) && acc >= 0
    ensures Accumulate(ds, acc) >= acc
    decreases |ds|
  {
    if |ds| > 0 {
      AccumulateGrows(ds[1..], acc * 10 + DigitValue(ds[0]));
    }
  }

  /** An unsigned numeral never names a negative number. */
  lemma UnsignedNumeralNonNegative(s: string)
    ensures IsNumeral(s, false) ==> NumeralValue(s, false) >= 0
  {
    if IsNumeral(s, false) {
      if s[0] == '+' {
        AccumulateGrows(s[1..], 0);
      } else {
        AccumulateGrows(s, 0);
      }
    }
  }

  /** Accumulating with a negated start and negating the result is what
      the negative branch of the parser computes. */
  lemma {:induction false} ParseDigitsMeaning(ds: string, acc: int, negative: bool, lo: int, hi: int)
    requires lo <= acc <= hi
    requires negative ==> acc <= 0
    requires !negative ==> acc >= 0
    ensures ParseDigits(ds, acc, negative, lo, hi).Ok? <==>
      AllDigits(ds) && lo <= (if negative then -Accumulate(ds, -acc) else Accumulate(ds, acc)) <= hi
    ensures ParseDigits(ds, acc, negative, lo, hi).Ok? ==>
      ParseDigits(ds, acc, negative, lo, hi).value == (if negative then -Accumulate(ds, -acc) else Accumulate(ds, acc))
    decreases |ds|
  {
    if |ds| > 0 && IsDigit(ds[0]) {
      var d := DigitValue(ds[0]);
      var next := if negative then acc * 10 - d else acc * 10 + d;
      if AllDigits(ds) {
        if negative {
          assert -next == (-acc) * 10 + d;
          AccumulateGrows(ds[1..], -next);
        } else {
          AccumulateGrows(ds[1..], next);
        }
      }
      if lo <= next <= hi {
        ParseDigitsMeaning(ds[1..], next, negative, lo, hi);
        if negative { assert -next == (-acc) * 10 + d; }
      }
    } else if |ds| > 0 {
      assert !AllDigits(ds);
    }
  }

  /** Decimal rendering of a natural number, most significant digit first. */
  function ShowNat(n: nat): (s: string)
    ensures |s| > 0 && AllDigits(s)
    decreases n
  {
    if n < 10 then [DigitChar(n)] else ShowNat(n / 10) + [DigitChar(n % 10)]
  }

  /** Rust's `Display` for integers: a `-` before negative numbers. */
  function ShowInt(i: int): string
  {
    if i < 0 then "-" + ShowNat(-i) else ShowNat(i)
  }

  lemma {:induction false} AccumulateSnoc(s: string, c: char, acc: int)
    requires AllDigits(s) && IsDigit(c)
    ensures AllDigits(s + [c])
    ensures Accumulate(s + [c], acc) == Accumulate(s, acc) * 10 + DigitValue(c)
    decreases |s|
  {
    if |s| > 0 {
      assert (s + [c])[1..] == s[1..] + [c];
      AccumulateSnoc(s[1..], c, acc * 10 + DigitValue(s[0]));
    }
  }

  lemma {:induction false} ShowNatValue(n: nat)
    ensures DecimalValue(ShowNat(n)) == n
    decreases n
  {
    if n >= 10 {
      ShowNatValue(n / 10);
      AccumulateSnoc(ShowNat(n / 10), DigitChar(n % 10), 0);
      assert ShowNat(n) == ShowNat(n / 10) + [DigitChar(n % 10)];
    } else {
      var s := ShowNat(n);
      assert s == [DigitChar(n)];
      assert Accumulate(s, 0) == Accumulate(s[1..], DigitValue(s[0]));
    }
  }

  /** The integer parser reads back every rendered integer of its range. */
  lemma ParseShowInt(i: int, lo: int, hi: int)
    requires lo <= 0 <= hi && lo <= i <= hi
    ensures ParseInteger(ShowInt(i), lo, hi) == Ok(i)
  {
    if i < 0 {
      ShowNatValue(-i);
      assert ShowInt(i)[1..] == ShowNat(-i);
    } else {
      ShowNatValue(i);
      assert IsDigit(ShowNat(i)[0]);
    }
  }

  /** A rendered integer holds only digits and at most a leading minus. */
  lemma ShowIntChars(i: int)
    ensures forall k :: 0 <= k < |ShowInt(i)| ==> ShowInt(i)[k] == '-' || IsDigit(ShowInt(i)[k])
    ensures forall k :: 1 <= k < |ShowInt(i)| ==> IsDigit(ShowInt(i)[k])
  {
    if i < 0 {
      forall k | 0 <= k < |ShowInt(i)|
        ensures ShowInt(i)[k] == '-' || IsDigit(ShowInt(i)[k])
        ensures k >= 1 ==> IsDigit(ShowInt(i)[k])
      {
        if k > 0 { assert ShowInt(i)[k] == ShowNat(-i)[k - 1]; }
      }
    }
  }

  lemma ShowIntHasNoSeparator(i: int, sep: char)
    requires !IsDigit(sep) && sep != '-'
    ensures sep !in ShowInt(i)
  {
    ShowIntChars(i);
  }

  /** The longest prefix made of digits and minus signs. */
  function NumeralPrefix(s: string): (r: string)
    ensures r <= s
  {
    if |s| > 0 && (s[0] == '-' || IsDigit(s[0])) then [s[0]] + NumeralPrefix(s[1..]) else ""
  }

  /** A rendered integer followed by anything that does not continue a
      numeral is recovered by `NumeralPrefix`. */
  lemma NumeralPrefixOfShown(i: int, rest: string)
    requires rest == "" || (rest[0] != '-' && !IsDigit(rest[0]))
    ensures NumeralPrefix(ShowInt(i) + rest) == ShowInt(i)
  {
    ShowIntChars(i);
    NumeralPrefixOfNumeric(ShowInt(i), rest);
  }

  lemma {:induction false} NumeralPrefixOfNumeric(n: string, rest: string)
    requires forall k :: 0 <= k < |n| ==> n[k] == '-' || IsDigit(n[k])
    requires rest == "" || (rest[0] != '-' && !IsDigit(rest[0]))
    ensures NumeralPrefix(n + rest) == n
    decreases |n|
  {
    if |n| == 0 {
      assert n + rest == rest;
    } else {
      assert (n + rest)[0] == n[0];
      assert (n + rest)[1..] == n[1..] + rest;
      NumeralPrefixOfNumeric(n[1..], rest);
    }
  }
}
