/** RandomUtils: random strings over fixed alphabets, random e-mail
    addresses and random integers in a range. SecureRandom is not modelled:
    the values `nextInt` returns are an input of the model (`picks`, `draw`),
    each already inside the bound it was asked for. */
module RandomValues {
  import opened Common
  import opened JavaStrings

  const Upper := "ABCDEFGHIJKLMNOPQRSTUVWXYZ"
  const Lower := ToLowerCase(Upper)
  const Digits := "0123456789"
  const AlphaNum := Upper + Lower + Digits

  const EmailDomain := "@testmail.com"
  const EmailRandomLength := 6

  const LengthMessage := "Length must be at least 1"
  const RangeMessage := "max must be greater than min"
  /** the message of `Random.nextInt` for a bound that is not positive */
  const BoundMessage := "bound must be positive"

  // ------------------------------------------------------------ alphabets

  /** `s` holds the characters from `first` on, one after another. */
  predicate Consecutive(s: string, first: char) {
    forall i :: 0 <= i < |s| ==> s[i] as int == first as int + i
  }

  lemma ConsecutiveMembers(s: string, first: char, c: char)
    requires Consecutive(s, first)
    ensures c in s <==> first as int <= c as int < first as int + |s|
  {
    if first as int <= c as int < first as int + |s| {
      assert s[c as int - first as int] == c;
    }
  }

  lemma UpperIsConsecutive()
    ensures Consecutive(Upper, 'A')
  {
  }

  lemma DigitsAreConsecutive()
    ensures Consecutive(Digits, '0')
  {
  }

  /** The lower-case alphabet is `a`..`z`, in order. */
  lemma LowerIsConsecutive()
    ensures |Lower| == 26 && Consecutive(Lower, 'a')
  {
    UpperIsConsecutive();
    forall i | 0 <= i < |Lower|
      ensures Lower[i] as int == 'a' as int + i
    {
      assert Lower[i] == LowerChar(Upper[i]);
    }
  }

  predicate IsAsciiLetter(c: char) {
    'A' <= c <= 'Z' || 'a' <= c <= 'z'
  }

  predicate IsAsciiLetterOrDigit(c: char) {
    IsAsciiLetter(c) || '0' <= c <= '9'
  }

  /** The alphabetic alphabet holds exactly the 52 ASCII letters. */
  lemma LettersAreAsciiLetters(c: char)
    ensures |Upper + Lower| == 52
    ensures c in Upper + Lower <==> IsAsciiLetter(c)
  {
    UpperIsConsecutive();
    LowerIsConsecutive();
    ConsecutiveMembers(Upper, 'A', c);
    ConsecutiveMembers(Lower, 'a', c);
  }

  /** The alphanumeric alphabet holds exactly the ASCII letters and digits:
      26 upper-case, 26 lower-case and 10 digits. */
  lemma AlphaNumIsLettersAndDigits(c: char)
    ensures |AlphaNum| == 62
    ensures c in AlphaNum <==> IsAsciiLetterOrDigit(c)
  {
    LettersAreAsciiLetters(c);
    DigitsAreConsecutive();
    ConsecutiveMembers(Digits, '0', c);
    assert AlphaNum == (Upper + Lower) + Digits;
  }

  // ------------------------------------------------------- random strings

  predicate PicksFit(characters: string, picks: seq<nat>) {
    forall i :: 0 <= i < |picks| ==> picks[i] < |characters|
  }

  /** The characters chosen by the indices in `picks`, in order. */
  function Draw(characters: string, picks: seq<nat>): (s: string)
    requires PicksFit(characters, picks)
    ensures |s| == |picks|
    ensures forall i :: 0 <= i < |picks| ==> s[i] == characters[picks[i]]
  {
    if picks == [] then [] else [characters[picks[0]]] + Draw(characters, picks[1..])
  }

  /** Every string over the alphabet can be drawn: no string the alphabet
      allows is out of reach. */
  lemma {:induction false} DrawCoversAlphabet(characters: string, s: string)
    requires forall i :: 0 <= i < |s| ==> s[i] in characters
    ensures exists picks :: PicksFit(characters, picks) && Draw(characters, picks) == s
  {
    if s == [] {
      assert PicksFit(characters, []) && Draw(characters, []) == s;
    } else {
      DrawCoversAlphabet(characters, s[1..]);
      var rest :| PicksFit(characters, rest) && Draw(characters, rest) == s[1..];
      var k :| 0 <= k < |characters| && characters[k] == s[0];
      var picks := [k as nat] + rest;
      assert picks[1..] == rest;
      assert PicksFit(characters, picks);
      assert Draw(characters, picks) == [s[0]] + s[1..] == s;
    }
  }

  /** `generateRandomString`: a length below 1 is refused before anything is
      drawn; then one `nextInt(characters.length())` per position, which
      throws for an empty alphabet. `picks[i]` is the i-th value drawn. */
  method GenerateRandomString(characters: string, length: int, picks: seq<nat>) returns (r: Result<string>)
    requires PicksFit(characters, picks)
    requires |characters| > 0 ==> length <= |picks|
    ensures length < 1 ==> r == Err(IllegalArgument(LengthMessage))
    ensures length >= 1 && |characters| == 0 ==> r == Err(IllegalArgument(BoundMessage))
    ensures r.Ok? <==> length >= 1 && |characters| > 0
    ensures r.Ok? ==> r.value == Draw(characters, picks[..length])
  {
    if length < 1 {
      return Err(IllegalArgument(LengthMessage));
    }
    if |characters| == 0 {
      return Err(IllegalArgument(BoundMessage));
    }
    var sb: string := [];
    for i := 0 to length
      invariant sb == Draw(characters, picks[..i])
    {
      assert picks[..i + 1] == picks[..i] + [picks[i]];
      DrawSnoc(characters, picks[..i], picks[i]);
      sb := sb + [characters[picks[i]]];
    }
    r := Ok(sb);
  }

  lemma DrawSnoc(characters: string, picks: seq<nat>, p: nat)
    requires PicksFit(characters, picks) && p < |characters|
    ensures PicksFit(characters, picks + [p])
    ensures Draw(characters, picks + [p]) == Draw(characters, picks) + [characters[p]]
  {
  }

  method GenerateRandomAlphaNumeric(length: int, picks: seq<nat>) returns (r: Result<string>)
    requires PicksFit(AlphaNum, picks) && length <= |picks|
    ensures length < 1 ==> r == Err(IllegalArgument(LengthMessage))
    ensures length >= 1 ==> (r.Ok? && |r.value| == length &&
      forall i :: 0 <= i < length ==> IsAsciiLetterOrDigit(r.value[i]))
    ensures length >= 1 ==> r == Ok(Draw(AlphaNum, picks[..length]))
  {
    r := GenerateRandomString(AlphaNum, length, picks);
    if r.Ok? {
      forall i | 0 <= i < length
        ensures IsAsciiLetterOrDigit(r.value[i])
      {
        AlphaNumIsLettersAndDigits(r.value[i]);
      }
    }
  }

  method GenerateRandomNumeric(length: int, picks: seq<nat>) returns (r: Result<string>)
    requires PicksFit(Digits, picks) && length <= |picks|
    ensures length < 1 ==> r == Err(IllegalArgument(LengthMessage))
    ensures length >= 1 ==> (r.Ok? && |r.value| == length &&
      forall i :: 0 <= i < length ==> IsDigit(r.value[i]))
  {
    r := GenerateRandomString(Digits, length, picks);
    if r.Ok? {
      forall i | 0 <= i < length
        ensures IsDigit(r.value[i])
      {
        assert r.value[i] == Digits[picks[i]];
      }
    }
  }

  method GenerateRandomAlphabetic(length: int, picks: seq<nat>) returns (r: Result<string>)
    requires PicksFit(Upper + Lower, picks) && length <= |picks|
    ensures length < 1 ==> r == Err(IllegalArgument(LengthMessage))
    ensures length >= 1 ==> (r.Ok? && |r.value| == length &&
      forall i :: 0 <= i < length ==> IsAsciiLetter(r.value[i]))
  {
    r := GenerateRandomString(Upper + Lower, length, picks);
    if r.Ok? {
      forall i | 0 <= i < length
        ensures IsAsciiLetter(r.value[i])
      {
        LettersAreAsciiLetters(r.value[i]);
      }
    }
  }

  /** `generateRandomEmail`: the prefix, six random alphanumeric characters
      and the test domain. */
  method GenerateRandomEmail(prefix: string, picks: seq<nat>) returns (email: string)
    requires PicksFit(AlphaNum, picks) && EmailRandomLength <= |picks|
    ensures |email| == |prefix| + EmailRandomLength + |EmailDomain|
    ensures email[..|prefix|] == prefix
    ensures email[|email| - |EmailDomain|..] == EmailDomain
    ensures forall i :: |prefix| <= i < |prefix| + EmailRandomLength ==> IsAsciiLetterOrDigit(email[i])
    ensures email == prefix + Draw(AlphaNum, picks[..EmailRandomLength]) + EmailDomain
  {
    var middle := GenerateRandomAlphaNumeric(EmailRandomLength, picks);
    email := prefix + middle.value + EmailDomain;
    assert email[..|prefix|] == prefix;
    assert email[|email| - |EmailDomain|..] == EmailDomain;
  }

  // ---------------------------------------------------------- random ints

  const MinInt: int := -0x8000_0000
  const MaxInt: int := 0x7FFF_FFFF

  type Int32 = x: int | MinInt <= x <= MaxInt

  /** Java `int` arithmetic: the result reduced into the 32-bit range. */
  function Wrap32(x: int): (r: Int32)
    ensures MinInt <= x <= MaxInt ==> r == x
    ensures (r - x) % 0x1_0000_0000 == 0
  {
    (x - MinInt) % 0x1_0000_0000 + MinInt
  }

  /** The bound `(max - min) + 1` handed to `nextInt`, in `int` arithmetic. */
  function Bound(min: Int32, max: Int32): Int32 {
    Wrap32(Wrap32(max - min) + 1)
  }

  /** The bound is positive exactly when the range holds at most 2^31 - 1
      values; a wider range wraps to a bound of zero or below. */
  lemma BoundPositive(min: Int32, max: Int32)
    requires min < max
    ensures Bound(min, max) > 0 <==> max - min <= MaxInt - 1
    ensures Bound(min, max) > 0 ==> Bound(min, max) == max - min + 1
  {
    if max - min <= MaxInt - 1 {
      assert Wrap32(max - min) == max - min;
    } else if max - min == MaxInt {
      assert Wrap32(max - min) == MaxInt;
      assert Bound(min, max) == MinInt;
    } else {
      assert Wrap32(max - min) == max - min - 0x1_0000_0000;
    }
  }

  /** `generateRandomIntInRange`: `draw` is the value `nextInt(bound)`
      returns, below the bound whenever the bound is positive. The sum
      `draw + min` cannot overflow once the bound is positive. */
  function GenerateRandomIntInRange(min: Int32, max: Int32, draw: nat): (r: Result<Int32>)
    requires min < max && Bound(min, max) > 0 ==> draw < Bound(min, max)
    ensures min >= max ==> r == Err(IllegalArgument(RangeMessage))
    ensures min < max && max - min > MaxInt - 1 ==> r == Err(IllegalArgument(BoundMessage))
    ensures r.Ok? <==> min < max && max - min <= MaxInt - 1
    ensures r.Ok? ==> min <= r.value <= max && r.value == min + draw
  {
    if min >= max then Err(IllegalArgument(RangeMessage))
    else
      BoundPositive(min, max);
      var bound := Bound(min, max);
      if bound <= 0 then Err(IllegalArgument(BoundMessage))
      else Ok(Wrap32(draw + min))
  }

  /** Every value of an accepted range comes out for exactly one draw. */
  lemma RangeCovered(min: Int32, max: Int32, v: Int32)
    requires min < max && max - min <= MaxInt - 1 && min <= v <= max
    ensures Bound(min, max) == max - min + 1
    ensures GenerateRandomIntInRange(min, max, v - min) == Ok(v)
    ensures forall draw: nat :: draw < Bound(min, max) && GenerateRandomIntInRange(min, max, draw) == Ok(v) ==> draw == v - min
  {
    BoundPositive(min, max);
  }

  /** As written, the widest ranges pass the `min >= max` guard and still
      fail, because `(max - min) + 1` wraps: the full `int` range, say. */
  lemma FullRangeRejected()
    ensures GenerateRandomIntInRange(MinInt, MaxInt, 0) == Err(IllegalArgument(BoundMessage))
  {
    BoundPositive(MinInt, MaxInt);
  }

  /** The range draw with the bound computed in `long` arithmetic, where
      `(max - min) + 1` is at most 2^32 and never wraps. */
  function GenerateRandomIntInRangeWide(min: Int32, max: Int32, draw: nat): (r: Result<Int32>)
    requires min < max ==> draw <= max - min
    ensures r.Ok? <==> min < max
    ensures r.Err? ==> r.error == IllegalArgument(RangeMessage)
    ensures r.Ok? ==> min <= r.value <= max && r.value == min + draw
  {
    if min >= max then Err(IllegalArgument(RangeMessage)) else Ok(min + draw)
  }

  /** The two agree on every range whose bound does not wrap. */
  lemma WideAgreesOnNarrowRanges(min: Int32, max: Int32, draw: nat)
    requires min < max && max - min <= MaxInt - 1 && draw <= max - min
    ensures GenerateRandomIntInRange(min, max, draw) == GenerateRandomIntInRangeWide(min, max, draw)
  {
    BoundPositive(min, max);
  }
}
