/**
 * The string operations the application performs through JavaScript's
 * built-ins: decimal formatting of integers, `padStart`, `parseInt`,
 * `split('-')`, `includes`, `toUpperCase` and the default code-unit order
 * of `Array.prototype.sort`.
 */
module Text {
  import opened Wrappers
  import opened Seqs

  predicate IsDigit(c: char)
  {
    '0' <= c <= '9'
  }

  predicate AllDigits(s: string)
  {
    forall i :: 0 <= i < |s| ==> IsDigit(s[i])
  }

  function DigitChar(d: nat): (c: char)
    requires d < 10
    ensures IsDigit(c) && c as int - '0' as int == d
  {
    ('0' as int + d) as char
  }

  function DigitValue(c: char): nat
    requires IsDigit(c)
  {
    c as int - '0' as int
  }

  /** `String(n)` for an integer `n >= 0`: its decimal numeral, without leading zeros. */
  function NatToString(n: nat): (s: string)
    ensures |s| >= 1 && AllDigits(s)
    ensures s[0] == '0' ==> s == "0"
  {
    if n < 10 then [DigitChar(n)]
    else NatToString(n / 10) + [DigitChar(n % 10)]
  }

  /** The value of a string of decimal digits (the empty string reads as 0). */
  function DigitsValue(s: string): nat
    requires AllDigits(s)
  {
    if s == [] then 0 else DigitsValue(s[..|s| - 1]) * 10 + DigitValue(s[|s| - 1])
  }

  /** Reading back a formatted integer gives the integer. */
  lemma {:induction false} NatToStringRoundTrip(n: nat)
    ensures DigitsValue(NatToString(n)) == n
  {
    if n >= 10 {
      NatToStringRoundTrip(n / 10);
      var s := NatToString(n);
      assert s[..|s| - 1] == NatToString(n / 10);
    }
  }

  lemma NatToStringInjective(a: nat, b: nat)
    requires NatToString(a) == NatToString(b)
    ensures a == b
  {
    NatToStringRoundTrip(a);
    NatToStringRoundTrip(b);
  }

  /** `s.padStart(2, '0')`. */
  function PadStart2(s: string): (r: string)
    ensures |s| >= 2 ==> r == s
    ensures |r| >= 2 && r[|r| - |s|..] == s
    ensures AllDigits(s) ==> AllDigits(r)
  {
    if |s| >= 2 then s else if |s| == 1 then "0" + s else "00"
  }

  // ---------------------------------------------------------------------
  // parseInt

  /** The longest prefix of `s` made of digits. */
  function DigitPrefix(s: string): (r: string)
    ensures AllDigits(r) && |r| <= |s| && r == s[..|r|]
    ensures |r| < |s| ==> !IsDigit(s[|r|])
  {
    if s == [] || !IsDigit(s[0]) then []
    else [s[0]] + DigitPrefix(s[1..])
  }

  /**
   * `parseInt(s)` on a string without leading white space or sign: the value
   * of its leading digits, or `None` (NaN) when it does not start with one.
   */
  function ParseInt(s: string): (r: Option<nat>)
    ensures r.None? <==> (s == [] || !IsDigit(s[0]))
  {
    var d := DigitPrefix(s);
    if d == [] then None else Some(DigitsValue(d))
  }

  lemma {:induction false} DigitPrefixOfDigits(s: string)
    requires AllDigits(s)
    ensures DigitPrefix(s) == s
  {
    if s != [] {
      DigitPrefixOfDigits(s[1..]);
    }
  }

  /** `parseInt` reads back what `String` and `padStart` wrote. */
  lemma ParseIntOfNatToString(n: nat)
    ensures ParseInt(NatToString(n)) == Some(n)
    ensures ParseInt(PadStart2(NatToString(n))) == Some(n)
  {
    var s := NatToString(n);
    DigitPrefixOfDigits(s);
    NatToStringRoundTrip(n);
    var p := PadStart2(s);
    if |s| < 2 {
      assert p == ['0'] + s;
      assert AllDigits(p);
      DigitPrefixOfDigits(p);
      assert p[..|p| - 1] == "0";
      assert DigitsValue("0") == 0 by {
        assert "0"[..0] == [];
      }
    }
  }

  // ---------------------------------------------------------------------
  // split

  /** The position of the first `c` in `s`. */
  function IndexOf(s: string, c: char): (r: Option<nat>)
    ensures r.None? <==> c !in s
    ensures r.Some? ==> r.value < |s| && s[r.value] == c && c !in s[..r.value]
  {
    if s == [] then None
    else if s[0] == c then Some(0)
    else
      match IndexOf(s[1..], c)
      case None => None
      case Some(i) =>
        assert s[..i + 1] == [s[0]] + s[1..][..i];
        Some(i + 1)
  }

  /** `s.split(sep)[0]`. */
  function SplitFirst(s: string, sep: char): string
  {
    match IndexOf(s, sep)
    case None => s
    case Some(i) => s[..i]
  }

  /** `s.split(sep)[1]`: `None` (undefined) when `sep` does not occur in `s`. */
  function SplitSecond(s: string, sep: char): Option<string>
  {
    match IndexOf(s, sep)
    case None => None
    case Some(i) => Some(SplitFirst(s[i + 1..], sep))
  }

  /** Splitting a joined pair gives the pair back. */
  lemma SplitJoin(a: string, b: string, sep: char)
    requires sep !in a && sep !in b
    ensures SplitFirst(a + [sep] + b, sep) == a
    ensures SplitSecond(a + [sep] + b, sep) == Some(b)
    ensures SplitSecond(a, sep) == None && SplitFirst(a, sep) == a
  {
    var s := a + [sep] + b;
    var i := IndexOf(s, sep);
    assert s[|a|] == sep;
    assert i.Some?;
    assert i.value == |a|;
    assert s[..|a|] == a;
    assert s[|a| + 1..] == b;
  }

  // ---------------------------------------------------------------------
  // includes, toUpperCase

  /** `s.includes(sub)`. */
  function Includes(s: string, sub: string): bool
  {
    if |sub| > |s| then false
    else if s[..|sub|] == sub then true
    else Includes(s[1..], sub)
  }

  /** `Includes` finds exactly the positions where `sub` occurs. */
  lemma {:induction false} IncludesIff(s: string, sub: string)
    ensures Includes(s, sub) <==> exists i :: 0 <= i <= |s| - |sub| && s[i..][..|sub|] == sub
  {
    if |sub| <= |s| && s[..|sub|] != sub {
      IncludesIff(s[1..], sub);
      if Includes(s, sub) {
        var i :| 0 <= i <= |s[1..]| - |sub| && s[1..][i..][..|sub|] == sub;
        assert s[i + 1..] == s[1..][i..];
      } else {
        forall i | 0 <= i <= |s| - |sub|
          ensures s[i..][..|sub|] != sub
        {
          if i > 0 {
            assert s[i..] == s[1..][i - 1..];
          }
        }
      }
    } else if |sub| <= |s| {
      assert s[0..][..|sub|] == sub;
    }
  }

  /** Looking for a one-character string is looking for the character. */
  lemma IncludesChar(s: string, c: char)
    ensures Includes(s, [c]) <==> c in s
  {
    IncludesIff(s, [c]);
    if c in s {
      var i :| 0 <= i < |s| && s[i] == c;
      assert s[i..][..1] == [c];
    }
    if Includes(s, [c]) {
      var i :| 0 <= i <= |s| - 1 && s[i..][..1] == [c];
      assert s[i] == c;
    }
  }

  function UpperChar(c: char): char
  {
    if 'a' <= c <= 'z' then (c as int - 32) as char else c
  }

  /** `s.toUpperCase()` on the ASCII letters. */
  function ToUpper(s: string): (r: string)
    ensures |r| == |s| && forall i :: 0 <= i < |s| ==> r[i] == UpperChar(s[i])
  {
    seq(|s|, i requires 0 <= i < |s| => UpperChar(s[i]))
  }

  /** Upper-casing twice changes nothing more. */
  lemma ToUpperIdempotent(s: string)
    ensures ToUpper(ToUpper(s)) == ToUpper(s)
  {
  }

  // ---------------------------------------------------------------------
  // The default order of Array.prototype.sort

  /** Lexicographic order of code units: how `sort()` without a comparator orders strings. */
  predicate LexLess(a: string, b: string)
  {
    if b == [] then false
    else if a == [] then true
    else if a[0] != b[0] then a[0] < b[0]
    else LexLess(a[1..], b[1..])
  }

  lemma {:induction false} LexLessIrreflexive(a: string)
    ensures !LexLess(a, a)
  {
    if a != [] {
      LexLessIrreflexive(a[1..]);
    }
  }

  lemma {:induction false} LexLessAsymmetric(a: string, b: string)
    requires LexLess(a, b)
    ensures !LexLess(b, a)
  {
    if a != [] && b != [] && a[0] == b[0] {
      LexLessAsymmetric(a[1..], b[1..]);
    }
  }

  lemma {:induction false} LexLessTransitive(a: string, b: string, c: string)
    requires LexLess(a, b) && LexLess(b, c)
    ensures LexLess(a, c)
  {
    if a != [] && a[0] == b[0] && b[0] == c[0] {
      LexLessTransitive(a[1..], b[1..], c[1..]);
    }
  }

  lemma {:induction false} LexLessTotal(a: string, b: string)
    requires a != b
    ensures LexLess(a, b) || LexLess(b, a)
  {
    if a != [] && b != [] && a[0] == b[0] {
      assert a == [a[0]] + a[1..] && b == [b[0]] + b[1..];
      LexLessTotal(a[1..], b[1..]);
    }
  }

  /** `LexLess` is a strict total order, hence a consistent sort comparator. */
  lemma LexLessIsStrictWeakOrder()
    ensures StrictWeakOrder(LexLess)
  {
    forall a, b | LexLess(a, b)
      ensures !LexLess(b, a)
    {
      LexLessAsymmetric(a, b);
    }
    forall a, b, c | !LexLess(a, b) && !LexLess(b, c)
      ensures !LexLess(a, c)
    {
      if LexLess(a, c) {
        if a == b {
        } else {
          LexLessTotal(a, b);
          if b == c {
          } else {
            LexLessTotal(b, c);
            LexLessTransitive(c, b, a);
            LexLessAsymmetric(a, c);
          }
        }
      }
    }
  }
}
