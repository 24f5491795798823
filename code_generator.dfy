/**
  Random short codes and the format check for user-supplied codes
  (utils/codeGenerator.js).
*/
module CodeGenerator {
  import opened JsValues

  /** The 62 characters a generated code is drawn from, in the order of the `chars` string in utils/codeGenerator.js:
      upper-case letters, lower-case letters, digits. */
  const Upper: string := "ABCDEFGHIJKLMNOPQRSTUVWXYZ"
  const Lower: string := "abcdefghijklmnopqrstuvwxyz"
  const Digits: string := "0123456789"
  const Alphabet: string := Upper + Lower + Digits

  /** The length `generateShortCode` uses when called without one. */
  const DefaultLength: nat := 7

  /** The bounds of `{6,8}` in the short-code pattern. */
  const MinCodeLength: nat := 6
  const MaxCodeLength: nat := 8

  /** One value of `Math.floor(Math.random() * chars.length)`: an index into Alphabet.
      The random source is an oracle; its distribution is not modelled. */
  type Draw = i: int | 0 <= i < 62

  /** The character class `[A-Za-z0-9]`. */
  predicate IsAlphanumeric(c: char) {
    'A' <= c <= 'Z' || 'a' <= c <= 'z' || '0' <= c <= '9'
  }

  /** Upper holds `A` to `Z` in order: entry i is the i-th letter after `A`. */
  lemma UpperIsLetterRange()
    ensures |Upper| == 26 && forall i :: 0 <= i < 26 ==> Upper[i] == ('A' as int + i) as char
  {
  }

  /** Lower holds `a` to `z` in order. */
  lemma LowerIsLetterRange()
    ensures |Lower| == 26 && forall i :: 0 <= i < 26 ==> Lower[i] == ('a' as int + i) as char
  {
  }

  /** Digits holds `0` to `9` in order. */
  lemma DigitsIsDigitRange()
    ensures |Digits| == 10 && forall i :: 0 <= i < 10 ==> Digits[i] == ('0' as int + i) as char
  {
  }

  /** Alphabet entry i is the i-th character of the three ranges `A-Z`, `a-z`, `0-9` laid end to end. */
  lemma AlphabetEntry(i: Draw)
    ensures |Alphabet| == 62
    ensures Alphabet[i] == if i < 26 then ('A' as int + i) as char
                           else if i < 52 then ('a' as int + i - 26) as char
                           else ('0' as int + i - 52) as char
  {
    UpperIsLetterRange();
    LowerIsLetterRange();
    DigitsIsDigitRange();
    if i < 26 {
      assert Alphabet[i] == Upper[i];
    } else if i < 52 {
      assert Alphabet[i] == Lower[i - 26];
    } else {
      assert Alphabet[i] == Digits[i - 52];
    }
  }

  /** Every character of Alphabet is in `[A-Za-z0-9]`. */
  lemma AlphabetIsAlphanumeric(i: Draw)
    ensures |Alphabet| == 62 && IsAlphanumeric(Alphabet[i])
  {
    AlphabetEntry(i);
  }

  /** Alphabet holds exactly the characters of `[A-Za-z0-9]`. */
  lemma AlphabetIsExactlyAlphanumeric(c: char)
    ensures c in Alphabet <==> IsAlphanumeric(c)
  {
    if 'A' <= c <= 'Z' {
      AlphabetEntry(c as int - 'A' as int);
    } else if 'a' <= c <= 'z' {
      AlphabetEntry(26 + c as int - 'a' as int);
    } else if '0' <= c <= '9' {
      AlphabetEntry(52 + c as int - '0' as int);
    } else {
      forall i | 0 <= i < 62 ensures Alphabet[i] != c {
        AlphabetIsAlphanumeric(i);
      }
    }
  }

  /** The code that a sequence of draws spells out, one character per draw. */
  function Spell(draws: seq<Draw>): string {
    seq(|draws|, i requires 0 <= i < |draws| => Alphabet[draws[i]])
  }

  /** `generateShortCode(length)`, reading the i-th random index from `draws[i]`.
      A negative length gives the empty code, as the `for` loop does not run. */
  method GenerateShortCode(length: int, draws: seq<Draw>) returns (code: string)
    requires length <= |draws|
    ensures |code| == if length < 0 then 0 else length
    ensures forall i :: 0 <= i < |code| ==> code[i] == Alphabet[draws[i]] && IsAlphanumeric(code[i])
    ensures code == Spell(draws[..|code|])
  {
    code := "";
    var i := 0;
    while i < length
      invariant 0 <= i <= if length < 0 then 0 else length
      invariant |code| == i
      invariant forall k :: 0 <= k < i ==> code[k] == Alphabet[draws[k]]
    {
      code := code + [Alphabet[draws[i]]];
      i := i + 1;
    }
    forall k | 0 <= k < |code| ensures IsAlphanumeric(code[k]) {
      AlphabetIsAlphanumeric(draws[k]);
    }
    assert code == Spell(draws[..|code|]);
  }

  /** `generateShortCode()` with the parameter left out. */
  method GenerateDefaultShortCode(draws: seq<Draw>) returns (code: string)
    requires DefaultLength <= |draws|
    ensures |code| == 7
    ensures code == Spell(draws[..7])
  {
    code := GenerateShortCode(DefaultLength, draws);
  }

  /** The anchored pattern `^[A-Za-z0-9]{6,8}$` matched left to right: at least `lo`
      and at most `hi` more characters of the class, then the end of the input. */
  function MatchesAlphanumericRun(s: string, lo: nat, hi: nat): bool
    decreases |s|
  {
    if s == [] then lo == 0
    else hi > 0 && IsAlphanumeric(s[0]) && MatchesAlphanumericRun(s[1..], if lo == 0 then 0 else lo - 1, hi - 1)
  }

  /** The matcher accepts exactly the strings of `lo` to `hi` characters of the class. */
  lemma {:induction false} AlphanumericRunExactly(s: string, lo: nat, hi: nat)
    ensures MatchesAlphanumericRun(s, lo, hi)
            <==> lo <= |s| <= hi && forall i :: 0 <= i < |s| ==> IsAlphanumeric(s[i])
    decreases |s|
  {
    if s != [] && hi > 0 {
      AlphanumericRunExactly(s[1..], if lo == 0 then 0 else lo - 1, hi - 1);
      assert forall i :: 1 <= i < |s| ==> s[i] == s[1..][i - 1];
    }
  }

  /** `isValidShortCode(code)`: false for anything falsy or not a string, else the pattern. */
  predicate IsValidShortCode(code: Value) {
    if !Truthy(code) || !code.Str? then false
    else MatchesAlphanumericRun(code.s, MinCodeLength, MaxCodeLength)
  }

  /** A code is valid exactly when it is a string of 6 to 8 characters of `[A-Za-z0-9]`. */
  lemma ValidShortCodeExactly(code: Value)
    ensures IsValidShortCode(code)
            <==> code.Str? && 6 <= |code.s| <= 8 && forall i :: 0 <= i < |code.s| ==> IsAlphanumeric(code.s[i])
  {
    if code.Str? {
      AlphanumericRunExactly(code.s, MinCodeLength, MaxCodeLength);
    }
  }

  /** Empty and non-string input is never a valid code. */
  lemma EmptyOrNonStringIsInvalid(code: Value)
    requires !code.Str? || code.s == ""
    ensures !IsValidShortCode(code)
  {
  }

  /** A code spelled by 6 to 8 draws, in particular by the default 7, passes the format check. */
  lemma SpelledCodeIsValid(draws: seq<Draw>)
    requires MinCodeLength <= |draws| <= MaxCodeLength
    ensures IsValidShortCode(Str(Spell(draws)))
  {
    var code := Spell(draws);
    forall i | 0 <= i < |code| ensures IsAlphanumeric(code[i]) {
      AlphabetIsAlphanumeric(draws[i]);
    }
    ValidShortCodeExactly(Str(code));
  }
}
