/** `int.TryParse` / `int.Parse` with the default `NumberStyles.Integer`
    and an invariant culture, as a left-to-right scan of the characters,
    and the decimal rendering of an `int` that it inverts. */
module Int32Text {
  import opened Wrappers
  import opened Text

  const MinInt32: int := -0x8000_0000
  const MaxInt32: int := 0x7FFF_FFFF

  /** C#'s `int`. */
  type Int32 = x: int | MinInt32 <= x <= MaxInt32

  /** The 32-bit two's-complement value of `n`: what unchecked C#
      arithmetic keeps of an out-of-range result. */
  function Wrap(n: int): (r: Int32)
    ensures (r - n) % 0x1_0000_0000 == 0
    ensures MinInt32 <= n <= MaxInt32 ==> r == n
  {
    var m := n % 0x1_0000_0000;
    if m <= MaxInt32 then m else m - 0x1_0000_0000
  }

  predicate AllDigits(s: string) {
    forall i :: 0 <= i < |s| ==> IsDigit(s[i])
  }

  function DigitValue(c: char): nat
    requires IsDigit(c)
  {
    c as int - '0' as int
  }

  /** `acc` followed by the decimal digits `s`, most significant first. */
  function Horner(acc: nat, s: string): nat
    requires AllDigits(s)
    decreases |s|
  {
    if s == [] then acc else Horner(10 * acc + DigitValue(s[0]), s[1..])
  }

  /** Where the scan of `int.Parse` stands. */
  datatype ScanState =
    | LeadingWhite                               // nothing but white space so far
    | AfterSign(negative: bool)                  // a sign, and no digit yet
    | InDigits(negative: bool, magnitude: nat)   // one digit or more
    | TrailingWhite(negative: bool, magnitude: nat)  // white space after the digits

  /** The signed value, if it fits in an `int`. */
  function Signed(negative: bool, magnitude: nat): Option<Int32> {
    var v: int := if negative then -(magnitude as int) else magnitude;
    if MinInt32 <= v <= MaxInt32 then Some(v) else None
  }

  /** The rest of the scan of `int.Parse` from state `st`. */
  function Scan(s: string, st: ScanState): Option<Int32>
    decreases |s|
  {
    if |s| == 0 then
      match st
      case InDigits(negative, m) => Signed(negative, m)
      case TrailingWhite(negative, m) => Signed(negative, m)
      case _ => None
    else
      var c := s[0];
      match st
      case LeadingWhite =>
        if IsSpace(c) then Scan(s[1..], LeadingWhite)
        else if c == '-' then Scan(s[1..], AfterSign(true))
        else if c == '+' then Scan(s[1..], AfterSign(false))
        else if IsDigit(c) then Scan(s[1..], InDigits(false, DigitValue(c)))
        else None
      case AfterSign(negative) =>
        if IsDigit(c) then Scan(s[1..], InDigits(negative, DigitValue(c))) else None
      case InDigits(negative, m) =>
        if IsDigit(c) then Scan(s[1..], InDigits(negative, 10 * m + DigitValue(c)))
        else if IsSpace(c) then Scan(s[1..], TrailingWhite(negative, m))
        else None
      case TrailingWhite(negative, m) =>
        if IsSpace(c) then Scan(s[1..], TrailingWhite(negative, m)) else None
  }

  /** `int.TryParse(s, out v)`: optional white space, an optional sign,
      one or more ASCII digits and optional white space, denoting a value
      in the range of `int`. `None` is `false` from `TryParse` and a
      `FormatException` or `OverflowException` from `int.Parse`. */
  function ParseInt32(s: string): Option<Int32> {
    Scan(s, LeadingWhite)
  }

  /** `int.TryParse(token, out _)`. */
  predicate IsInt(token: string) {
    ParseInt32(token).Some?
  }

  /** The characters `int.Parse` can accept at all. */
  predicate IsNumberChar(c: char) {
    IsSpace(c) || IsDigit(c) || c == '-' || c == '+'
  }

  /** A successful scan reads only white space, signs and digits. */
  lemma {:induction false} ScanAlphabet(s: string, st: ScanState)
    requires Scan(s, st).Some?
    ensures forall i :: 0 <= i < |s| ==> IsNumberChar(s[i])
    decreases |s|
  {
    if |s| > 0 {
      var next :| Scan(s, st) == Scan(s[1..], next) by {
        match st
        case LeadingWhite =>
        case AfterSign(_) =>
        case InDigits(_, _) =>
        case TrailingWhite(_, _) =>
      }
      ScanAlphabet(s[1..], next);
      assert forall i :: 1 <= i < |s| ==> s[i] == s[1..][i - 1];
    }
  }

  function DigitChar(d: nat): (c: char)
    requires d < 10
    ensures IsDigit(c) && DigitValue(c) == d
  {
    ('0' as int + d) as char
  }

  lemma {:induction false} HornerSnoc(acc: nat, s: string, c: char)
    requires AllDigits(s) && IsDigit(c)
    ensures AllDigits(s + [c])
    ensures Horner(acc, s + [c]) == 10 * Horner(acc, s) + DigitValue(c)
    decreases |s|
  {
    if s != [] {
      assert (s + [c])[1..] == s[1..] + [c];
      HornerSnoc(10 * acc + DigitValue(s[0]), s[1..], c);
    }
  }

  /** The shortest decimal digits of `n`. */
  function NatDigits(n: nat): (s: string)
    ensures |s| >= 1 && AllDigits(s)
    ensures Horner(0, s) == n
  {
    if n < 10 then [DigitChar(n)]
    else
      var prefix := NatDigits(n / 10);
      HornerSnoc(0, prefix, DigitChar(n % 10));
      prefix + [DigitChar(n % 10)]
  }

  /** `n.ToString()` in the invariant culture. */
  function Int32ToString(n: Int32): (s: string)
    ensures forall i :: 0 <= i < |s| ==> IsDigit(s[i]) || (i == 0 && s[i] == '-')
    ensures n < 0 <==> '-' in s
  {
    if n < 0 then "-" + NatDigits(-(n as int)) else NatDigits(n)
  }

  lemma {:induction false} ScanLeadingWhite(w: string, rest: string)
    requires AllSpace(w)
    ensures Scan(w + rest, LeadingWhite) == Scan(rest, LeadingWhite)
    decreases |w|
  {
    if w == [] {
      assert w + rest == rest;
    } else {
      assert (w + rest)[1..] == w[1..] + rest;
      ScanLeadingWhite(w[1..], rest);
    }
  }

  lemma {:induction false} ScanTrailingWhite(w: string, negative: bool, m: nat)
    requires AllSpace(w)
    ensures Scan(w, InDigits(negative, m)) == Signed(negative, m)
    ensures Scan(w, TrailingWhite(negative, m)) == Signed(negative, m)
    decreases |w|
  {
    if w != [] {
      ScanTrailingWhite(w[1..], negative, m);
    }
  }

  lemma {:induction false} ScanDigits(d: string, w: string, negative: bool, m: nat)
    requires AllDigits(d)
    requires AllSpace(w)
    ensures Scan(d + w, InDigits(negative, m)) == Signed(negative, Horner(m, d))
    decreases |d|
  {
    if d == [] {
      assert d + w == w;
      ScanTrailingWhite(w, negative, m);
    } else {
      assert (d + w)[1..] == d[1..] + w;
      ScanDigits(d[1..], w, negative, 10 * m + DigitValue(d[0]));
    }
  }

  /** `int.Parse` reads back what `ToString` writes, negative numbers
      included, with any white space around it. */
  lemma ParseToString(n: Int32, before: string, after: string)
    requires AllSpace(before)
    requires AllSpace(after)
    ensures ParseInt32(before + Int32ToString(n) + after) == Some(n)
  {
    var s := Int32ToString(n);
    assert before + s + after == before + (s + after);
    ScanLeadingWhite(before, s + after);
    if n < 0 {
      var d := NatDigits(-(n as int));
      assert s + after == [s[0]] + (d + after);
      assert (s + after)[1..] == d + after;
      assert d + after == [d[0]] + (d[1..] + after);
      ScanDigits(d[1..], after, true, DigitValue(d[0]));
    } else {
      var d := NatDigits(n);
      assert (s + after)[1..] == d[1..] + after;
      ScanDigits(d[1..], after, false, DigitValue(d[0]));
    }
  }

  /** Case does not matter to `int.Parse`: a letter is never accepted. */
  lemma ParseIgnoresCase(s: string)
    ensures ParseInt32(Lower(s)) == ParseInt32(s)
  {
    if forall i :: 0 <= i < |s| ==> IsNumberChar(s[i]) {
      assert Lower(s) == s;
    } else {
      var i :| 0 <= i < |s| && !IsNumberChar(s[i]);
      assert !IsNumberChar(Lower(s)[i]);
      if ParseInt32(Lower(s)).Some? {
        ScanAlphabet(Lower(s), LeadingWhite);
      }
      if ParseInt32(s).Some? {
        ScanAlphabet(s, LeadingWhite);
      }
    }
  }

  // ---------------------------------------------------------------------
  // The accepted tokens, stated by their shape

  /** The number of decimal digits that start `s`. */
  function DigitRun(s: string): (k: nat)
    ensures k <= |s| && AllDigits(s[..k])
    ensures k < |s| ==> !IsDigit(s[k])
  {
    if |s| > 0 && IsDigit(s[0]) then
      var k := 1 + DigitRun(s[1..]);
      assert s[..k] == [s[0]] + s[1..][..k - 1];
      k
    else 0
  }

  /** `s` read as white space, an optional `-` or `+`, one or more digits
      and white space, with its signed value if that lies in the range of
      `int`; `None` for any other text or a value out of range. */
  function TokenValue(s: string): Option<Int32> {
    var t := s[LeadingSpace(s)..];
    var signed := |t| > 0 && (t[0] == '-' || t[0] == '+');
    var digits := if signed then t[1..] else t;
    var k := DigitRun(digits);
    if k >= 1 && AllSpace(digits[k..]) then Signed(signed && t[0] == '-', Horner(0, digits[..k]))
    else None
  }

  lemma {:induction false} ScanTrailingRun(t: string, negative: bool, m: nat)
    ensures Scan(t, TrailingWhite(negative, m)) == if AllSpace(t) then Signed(negative, m) else None
    decreases |t|
  {
    if |t| > 0 {
      ScanTrailingRun(t[1..], negative, m);
      assert AllSpace(t) <==> IsSpace(t[0]) && AllSpace(t[1..]) by {
        assert forall i :: 1 <= i < |t| ==> t[i] == t[1..][i - 1];
      }
    }
  }

  lemma {:induction false} ScanDigitRun(t: string, negative: bool, m: nat)
    ensures var k := DigitRun(t);
      Scan(t, InDigits(negative, m)) == if AllSpace(t[k..]) then Signed(negative, Horner(m, t[..k])) else None
    decreases |t|
  {
    if |t| > 0 {
      if IsDigit(t[0]) {
        ScanDigitRun(t[1..], negative, 10 * m + DigitValue(t[0]));
        var k := DigitRun(t);
        assert t[..k][1..] == t[1..][..k - 1];
        assert t[k..] == t[1..][k - 1..];
      } else if IsSpace(t[0]) {
        ScanTrailingRun(t[1..], negative, m);
        assert AllSpace(t) <==> AllSpace(t[1..]) by {
          assert forall i :: 1 <= i < |t| ==> t[i] == t[1..][i - 1];
        }
        assert t[0..] == t;
      } else {
        assert !AllSpace(t[0..]) by {
          assert t[0..][0] == t[0];
        }
      }
    }
  }

  lemma ScanAfterSignRun(u: string, negative: bool)
    ensures var k := DigitRun(u);
      Scan(u, AfterSign(negative)) == if k >= 1 && AllSpace(u[k..]) then Signed(negative, Horner(0, u[..k])) else None
  {
    if |u| > 0 && IsDigit(u[0]) {
      ScanDigitRun(u[1..], negative, DigitValue(u[0]));
      var k := DigitRun(u);
      assert u[..k][1..] == u[1..][..k - 1];
      assert u[k..] == u[1..][k - 1..];
    }
  }

  /** `int.TryParse` accepts exactly the tokens of the shape `TokenValue`
      describes, and gives them its value: the scan and the shape agree on
      every string. */
  lemma {:induction false} ParseIsTokenValue(s: string)
    ensures ParseInt32(s) == TokenValue(s)
    decreases |s|
  {
    if |s| > 0 {
      if IsSpace(s[0]) {
        ParseIsTokenValue(s[1..]);
        assert s[LeadingSpace(s)..] == s[1..][LeadingSpace(s[1..])..];
      } else {
        assert s[LeadingSpace(s)..] == s;
        if s[0] == '-' || s[0] == '+' {
          ScanAfterSignRun(s[1..], s[0] == '-');
        } else {
          ScanAfterSignRun(s, false);
          if IsDigit(s[0]) {
            assert Scan(s, LeadingWhite) == Scan(s, AfterSign(false));
          }
        }
      }
    }
  }

  /** Digits and white space after the sign, if any. */
  lemma ScanSignedDigits(negative: bool, digits: string, after: string)
    requires AllSpace(after)
    requires |digits| >= 1 && AllDigits(digits)
    ensures Scan(digits + after, AfterSign(negative)) == Signed(negative, Horner(0, digits))
  {
    var rest := digits[1..] + after;
    assert digits + after == [digits[0]] + rest;
    ScanFirstDigit(digits[0], rest, negative);
    ScanDigits(digits[1..], after, negative, DigitValue(digits[0]));
  }

  lemma ScanFirstDigit(c: char, rest: string, negative: bool)
    requires IsDigit(c)
    ensures Scan([c] + rest, AfterSign(negative)) == Scan(rest, InDigits(negative, DigitValue(c)))
  {
    assert ([c] + rest)[1..] == rest;
  }

  lemma ParseUnsigned(before: string, digits: string, after: string)
    requires AllSpace(before) && AllSpace(after)
    requires |digits| >= 1 && AllDigits(digits)
    ensures ParseInt32(before + digits + after) == Signed(false, Horner(0, digits))
  {
    var rest := digits + after;
    assert before + digits + after == before + rest;
    ScanLeadingWhite(before, rest);
    ScanSignedDigits(false, digits, after);
    assert Scan(rest, LeadingWhite) == Scan(rest, AfterSign(false));
  }

  lemma ParseSigned(before: string, c: char, digits: string, after: string)
    requires AllSpace(before) && AllSpace(after)
    requires c == '-' || c == '+'
    requires |digits| >= 1 && AllDigits(digits)
    ensures ParseInt32(before + [c] + digits + after) == Signed(c == '-', Horner(0, digits))
  {
    var rest := digits + after;
    assert before + [c] + digits + after == before + ([c] + rest);
    ScanLeadingWhite(before, [c] + rest);
    ScanSignedDigits(c == '-', digits, after);
    assert ([c] + rest)[1..] == rest;
  }

  /** White space, a sign or none, digits and white space are read as the
      signed value of the digits, and rejected when that value does not
      fit in an `int`. */
  lemma ParseShape(before: string, sign: string, digits: string, after: string)
    requires AllSpace(before) && AllSpace(after)
    requires |sign| <= 1 && (|sign| == 1 ==> sign[0] == '-' || sign[0] == '+')
    requires |digits| >= 1 && AllDigits(digits)
    ensures ParseInt32(before + sign + digits + after) == Signed(sign == ['-'], Horner(0, digits))
  {
    if |sign| == 0 {
      assert before + sign + digits + after == before + digits + after;
      ParseUnsigned(before, digits, after);
    } else {
      assert sign == [sign[0]];
      ParseSigned(before, sign[0], digits, after);
    }
  }
}
