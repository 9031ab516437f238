/** The few java.lang.String and java.lang.Long operations the framework
    relies on, with Java's semantics written out. */
module JavaStrings {
  import opened Common

  // ---------------------------------------------------------------- trim

  /** `String.trim()` removes every leading and trailing code unit <= U+0020. */
  predicate IsTrimmable(c: char) { c <= ' ' }

  function TrimStart(s: string): string {
    if |s| > 0 && IsTrimmable(s[0]) then TrimStart(s[1..]) else s
  }

  function TrimEnd(s: string): string {
    if |s| > 0 && IsTrimmable(s[|s| - 1]) then TrimEnd(s[..|s| - 1]) else s
  }

  /** TrimStart drops exactly the leading run of trimmable characters. */
  lemma {:induction false} TrimStartShape(s: string)
    ensures |TrimStart(s)| <= |s| && TrimStart(s) == s[|s| - |TrimStart(s)|..]
    ensures TrimStart(s) == [] || !IsTrimmable(TrimStart(s)[0])
    ensures forall i :: 0 <= i < |s| - |TrimStart(s)| ==> IsTrimmable(s[i])
  {
    if |s| > 0 && IsTrimmable(s[0]) {
      TrimStartShape(s[1..]);
      var r := TrimStart(s[1..]);
      assert s[1..][|s[1..]| - |r|..] == s[|s| - |r|..];
      forall i | 0 <= i < |s| - |r|
        ensures IsTrimmable(s[i])
      {
        if i > 0 {
          assert s[i] == s[1..][i - 1];
        }
      }
    }
  }

  /** TrimEnd drops exactly the trailing run of trimmable characters. */
  lemma {:induction false} TrimEndShape(s: string)
    ensures |TrimEnd(s)| <= |s| && TrimEnd(s) == s[..|TrimEnd(s)|]
    ensures TrimEnd(s) == [] || !IsTrimmable(TrimEnd(s)[|TrimEnd(s)| - 1])
    ensures forall i :: |TrimEnd(s)| <= i < |s| ==> IsTrimmable(s[i])
  {
    if |s| > 0 && IsTrimmable(s[|s| - 1]) {
      var p := s[..|s| - 1];
      TrimEndShape(p);
      var r := TrimEnd(p);
      assert p[..|r|] == s[..|r|];
      forall i | |r| <= i < |s|
        ensures IsTrimmable(s[i])
      {
        if i < |s| - 1 {
          assert s[i] == p[i];
        }
      }
    }
  }

  function Trim(s: string): string {
    TrimEnd(TrimStart(s))
  }

  /** `s.trim().isEmpty()` */
  predicate IsBlank(s: string) { Trim(s) == "" }

  /** A trimmed string is the piece of its input that starts after the
      leading trimmable run; it neither starts nor ends with a trimmable
      character, and everything cut off on either side is trimmable. */
  lemma TrimShape(s: string)
    ensures |TrimStart(s)| <= |s|
    ensures |s| - |TrimStart(s)| + |Trim(s)| <= |s|
    ensures Trim(s) == s[|s| - |TrimStart(s)|..|s| - |TrimStart(s)| + |Trim(s)|]
    ensures forall i :: 0 <= i < |s| - |TrimStart(s)| ==> IsTrimmable(s[i])
    ensures forall i :: |s| - |TrimStart(s)| + |Trim(s)| <= i < |s| ==> IsTrimmable(s[i])
    ensures Trim(s) == [] || (!IsTrimmable(Trim(s)[0]) && !IsTrimmable(Trim(s)[|Trim(s)| - 1]))
  {
    var t := TrimStart(s);
    var r := TrimEnd(t);
    TrimStartShape(s);
    TrimEndShape(t);
    var k := |s| - |t|;
    assert t == s[k..];
    assert r == t[..|r|];
    assert r == s[k..k + |r|];
    forall i | k + |r| <= i < |s|
      ensures IsTrimmable(s[i])
    {
      assert s[i] == t[i - k];
    }
    if r != [] {
      assert r[0] == t[0];
    }
  }

  /** Blank means: nothing but trimmable characters. */
  lemma BlankIff(s: string)
    ensures IsBlank(s) <==> forall i :: 0 <= i < |s| ==> IsTrimmable(s[i])
  {
    TrimShape(s);
    var k := |s| - |TrimStart(s)|;
    assert Trim(s) != [] ==> Trim(s)[0] == s[k];
  }

  lemma {:induction false} TrimIdempotent(s: string)
    ensures Trim(Trim(s)) == Trim(s)
  {
    var r := Trim(s);
    TrimShape(s);
    if r != [] {
      assert TrimStart(r) == r;
      assert TrimEnd(r) == r;
    }
  }

  // ---------------------------------------------------------- lower case

  /** The ASCII part of `String.toLowerCase()`. */
  function LowerChar(c: char): char {
    if 'A' <= c <= 'Z' then (c as int - 'A' as int + 'a' as int) as char else c
  }

  function ToLowerCase(s: string): (r: string)
    ensures |r| == |s|
    ensures forall i :: 0 <= i < |s| ==> !('A' <= r[i] <= 'Z')
    ensures forall i :: 0 <= i < |s| && !('A' <= s[i] <= 'Z') ==> r[i] == s[i]
    ensures forall i :: 0 <= i < |s| && 'A' <= s[i] <= 'Z' ==> r[i] as int == s[i] as int + 32
  {
    seq(|s|, i requires 0 <= i < |s| => LowerChar(s[i]))
  }

  lemma ToLowerCaseIdempotent(s: string)
    ensures ToLowerCase(ToLowerCase(s)) == ToLowerCase(s)
  {
  }

  // ----------------------------------------------------- Long.parseLong

  const MinLong: int := -0x8000_0000_0000_0000
  const MaxLong: int := 0x7FFF_FFFF_FFFF_FFFF

  predicate IsDigit(c: char) { '0' <= c <= '9' }

  predicate AllDigits(s: string) { forall i :: 0 <= i < |s| ==> IsDigit(s[i]) }

  /** The value of a string of decimal digits, most significant first. */
  function DigitsValue(s: string): nat
    requires AllDigits(s)
  {
    if s == [] then 0 else DigitsValue(s[..|s| - 1]) * 10 + (s[|s| - 1] as int - '0' as int)
  }

  /** `Long.parseLong(s)`: an optional sign, at least one decimal digit, and a
      value inside the signed 64-bit range; `None` is a NumberFormatException. */
  function ParseLong(s: string): (r: Option<int>)
    ensures r.Some? ==> MinLong <= r.value <= MaxLong
    ensures r.Some? ==> s != [] && (IsDigit(s[0]) || s[0] == '-' || s[0] == '+')
    ensures r.Some? ==> IsDigit(s[|s| - 1]) && forall i :: 0 < i < |s| ==> IsDigit(s[i])
    ensures s != [] && AllDigits(s) && DigitsValue(s) <= MaxLong ==> r == Some(DigitsValue(s))
  {
    var signed := |s| > 0 && (s[0] == '-' || s[0] == '+');
    var digits := if signed then s[1..] else s;
    if digits == [] || !AllDigits(digits) then None
    else
      var magnitude: int := DigitsValue(digits);
      var v := if signed && s[0] == '-' then -magnitude else magnitude;
      if MinLong <= v <= MaxLong then Some(v) else None
  }

  // ------------------------------------------------------ Long.toString

  function DigitChar(d: nat): char
    requires d < 10
  {
    ('0' as int + d) as char
  }

  function NatToString(n: nat): (r: string)
    ensures r != [] && AllDigits(r)
  {
    if n < 10 then [DigitChar(n)] else NatToString(n / 10) + [DigitChar(n % 10)]
  }

  /** `Long.toString(n)` */
  function LongToString(n: int): string {
    if n < 0 then "-" + NatToString(-n) else NatToString(n)
  }

  lemma {:induction false} DigitsOfNat(n: nat)
    ensures DigitsValue(NatToString(n)) == n
  {
    if n >= 10 {
      var s := NatToString(n);
      assert s[..|s| - 1] == NatToString(n / 10);
      DigitsOfNat(n / 10);
    }
  }

  /** Parsing undoes printing on the whole signed 64-bit range. */
  lemma ParseLongOfToString(n: int)
    requires MinLong <= n <= MaxLong
    ensures ParseLong(LongToString(n)) == Some(n)
  {
    var s := LongToString(n);
    if n < 0 {
      assert s[1..] == NatToString(-n);
      DigitsOfNat(-n);
    } else {
      DigitsOfNat(n);
    }
  }

  /** Leading zeros add nothing to the value of a digit string. */
  lemma {:induction false} DigitsValueLeadingZeros(zeros: string, t: string)
    requires forall i :: 0 <= i < |zeros| ==> zeros[i] == '0'
    requires AllDigits(t)
    ensures AllDigits(zeros + t) && DigitsValue(zeros + t) == DigitsValue(t)
    decreases |zeros| + |t|
  {
    var u := zeros + t;
    assert forall i :: 0 <= i < |u| ==> IsDigit(u[i]) by {
      forall i | 0 <= i < |u|
        ensures IsDigit(u[i])
      {
        if i < |zeros| { assert u[i] == zeros[i]; } else { assert u[i] == t[i - |zeros|]; }
      }
    }
    if t == [] {
      assert u == zeros;
      if zeros != [] {
        assert u[..|u| - 1] == zeros[..|zeros| - 1];
        DigitsValueLeadingZeros(zeros[..|zeros| - 1], []);
        assert zeros[..|zeros| - 1] + [] == zeros[..|zeros| - 1];
      }
    } else {
      assert u[..|u| - 1] == zeros + t[..|t| - 1];
      assert u[|u| - 1] == t[|t| - 1];
      DigitsValueLeadingZeros(zeros, t[..|t| - 1]);
    }
  }

  /** Any numeral `Long.parseLong` reads: an optional sign, any number of
      leading zeros, then the decimal digits of `k`. It parses to the signed
      value when that is inside the 64-bit range, and fails otherwise. */
  lemma ParseLongOfNumeral(sign: string, zeros: string, k: nat)
    requires sign == "" || sign == "+" || sign == "-"
    requires forall i :: 0 <= i < |zeros| ==> zeros[i] == '0'
    ensures var v: int := if sign == "-" then -(k as int) else k;
      ParseLong(sign + (zeros + NatToString(k))) == if MinLong <= v <= MaxLong then Some(v) else None
  {
    var digits := zeros + NatToString(k);
    assert digits != [] && AllDigits(digits) && DigitsValue(digits) == k by {
      DigitsOfNat(k);
      DigitsValueLeadingZeros(zeros, NatToString(k));
    }
    ParseLongOfSignedDigits(sign, digits, k);
  }

  /** A sign (or none) followed by decimal digits parses to their signed value. */
  lemma ParseLongOfSignedDigits(sign: string, digits: string, n: nat)
    requires sign == "" || sign == "+" || sign == "-"
    requires digits != [] && AllDigits(digits) && DigitsValue(digits) == n
    ensures var v: int := if sign == "-" then -(n as int) else n;
      ParseLong(sign + digits) == if MinLong <= v <= MaxLong then Some(v) else None
  {
    var s := sign + digits;
    if sign == "" {
      assert s == digits;
      assert IsDigit(s[0]);
    } else {
      assert s[0] == sign[0];
      assert s[1..] == digits;
    }
  }

  /** A character other than a digit after the optional sign fails the parse. */
  lemma ParseLongRejectsNonDigit(s: string, i: nat)
    requires 0 < i < |s| && !IsDigit(s[i])
    ensures ParseLong(s) == None
  {
  }

  // ------------------------------------------------------- String.split

  /** Every field between occurrences of `sep`, empty ones included. */
  function Fields(s: string, sep: char): (fs: seq<string>)
    ensures |fs| >= 1
    decreases |s|
  {
    if s == [] then [""]
    else
      var rest := Fields(s[1..], sep);
      if s[0] == sep then [""] + rest else [[s[0]] + rest[0]] + rest[1..]
  }

  /** `String.join(sep, fields)` */
  function Join(fs: seq<string>, sep: char): string
    requires |fs| >= 1
    decreases |fs|
  {
    if |fs| == 1 then fs[0] else fs[0] + [sep] + Join(fs[1..], sep)
  }

  /** Drop the empty strings at the end. */
  function DropTrailingEmpty(fs: seq<string>): (r: seq<string>)
    ensures |r| <= |fs| && r == fs[..|r|]
    ensures forall i :: |r| <= i < |fs| ==> fs[i] == ""
    ensures r == [] || r[|r| - 1] != ""
  {
    if fs == [] then []
    else if fs[|fs| - 1] == "" then DropTrailingEmpty(fs[..|fs| - 1])
    else fs
  }

  /** `s.split(String.valueOf(sep))` with the default limit 0, for a separator
      that is no regular-expression metacharacter: when `sep` does not occur
      the string itself comes back (even an empty one); otherwise the fields,
      less any trailing empty ones. No value holds the separator. */
  function Split(s: string, sep: char): (r: seq<string>)
    ensures sep !in s ==> r == [s]
    ensures sep in s ==>
      var fs := Fields(s, sep);
      && |r| <= |fs| && r == fs[..|r|]
      && (forall i :: |r| <= i < |fs| ==> fs[i] == "")
      && (r == [] || r[|r| - 1] != "")
    ensures forall i :: 0 <= i < |r| ==> sep !in r[i]
  {
    FieldsJoin(s, sep);
    if sep !in s then [s] else DropTrailingEmpty(Fields(s, sep))
  }

  /** Joining the fields back gives the string; no field holds the separator. */
  lemma {:induction false} FieldsJoin(s: string, sep: char)
    ensures Join(Fields(s, sep), sep) == s
    ensures forall i :: 0 <= i < |Fields(s, sep)| ==> sep !in Fields(s, sep)[i]
    decreases |s|
  {
    if s != [] {
      FieldsJoin(s[1..], sep);
      var rest := Fields(s[1..], sep);
      if s[0] == sep {
        assert ([""] + rest)[1..] == rest;
        assert s == [s[0]] + s[1..];
      } else {
        var fs := [[s[0]] + rest[0]] + rest[1..];
        if |rest| == 1 {
          assert s == [s[0]] + s[1..];
        } else {
          assert fs[1..] == rest[1..];
          assert Join(rest, sep) == rest[0] + [sep] + Join(rest[1..], sep);
          assert s == [s[0]] + s[1..];
        }
        forall i | 0 <= i < |fs|
          ensures sep !in fs[i]
        {
          if i > 0 {
            assert fs[i] == rest[i];
          }
        }
      }
    }
  }
}
