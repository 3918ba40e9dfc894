/**
 * The bot's helper rules: spam detection on incoming text, the duplicate
 * payment check, and random identifiers.
 */
module Helpers {
  import opened Strings

  // ------------------------------------------------------------------ spam

  const SpamKeywords: seq<string> :=
    ["casino", "porn", "sex", "viagra", "lottery", "free money", "bitcoin generator"]

  /** The characters counted towards the special-character ratio. */
  const SpecialChars: string := "!@#$%^&*()_+={}[]|\\:;'<>,.?/"

  /** How many characters of `s` are special characters. */
  function CountSpecial(s: string): (n: nat)
    ensures n <= |s|
    decreases |s|
  {
    if |s| == 0 then 0
    else CountSpecial(s[..|s| - 1]) + (if s[|s| - 1] in SpecialChars then 1 else 0)
  }

  predicate HasSpamKeyword(text: string) {
    exists k :: 0 <= k < |SpamKeywords| && Contains(PyLower(text), SpamKeywords[k])
  }

  /** More than 30% of the characters are special characters. */
  predicate TooManySpecial(text: string) {
    10 * CountSpecial(text) > 3 * |text|
  }

  /** The spam rule: a keyword anywhere in the lowercased text, or too many special characters. */
  predicate Spam(text: string) {
    HasSpamKeyword(text) || TooManySpecial(text)
  }

  /** `is_spam`: the keyword scan with early exit, then the special-character count. */
  method IsSpam(text: string) returns (spam: bool)
    ensures spam <==> Spam(text)
  {
    var lowered := PyLower(text);
    var k := 0;
    while k < |SpamKeywords|
      invariant 0 <= k <= |SpamKeywords|
      invariant forall j :: 0 <= j < k ==> !Contains(lowered, SpamKeywords[j])
    {
      if Contains(lowered, SpamKeywords[k]) {
        return true;
      }
      k := k + 1;
    }
    var count := 0;
    var i := 0;
    while i < |text|
      invariant 0 <= i <= |text|
      invariant count == CountSpecial(text[..i])
    {
      assert text[..i + 1][..i] == text[..i];
      if text[i] in SpecialChars {
        count := count + 1;
      }
      i := i + 1;
    }
    assert text[..|text|] == text;
    return 10 * count > 3 * |text|;
  }

  lemma {:induction false} NoSpecialCountsZero(text: string)
    requires forall i :: 0 <= i < |text| ==> text[i] !in SpecialChars
    ensures CountSpecial(text) == 0
    decreases |text|
  {
    if |text| > 0 {
      NoSpecialCountsZero(text[..|text| - 1]);
    }
  }

  /** Text with no keyword in it and no special character, the empty text included, is not spam. */
  lemma PlainTextIsNotSpam(text: string)
    requires forall k :: 0 <= k < |SpamKeywords| ==> !Contains(PyLower(text), SpamKeywords[k])
    requires forall i :: 0 <= i < |text| ==> text[i] !in SpecialChars
    ensures !Spam(text)
  {
    NoSpecialCountsZero(text);
  }

  /** The empty message is not spam. */
  lemma EmptyTextIsNotSpam()
    ensures !Spam("")
  {
    forall k | 0 <= k < |SpamKeywords|
      ensures !Contains(PyLower(""), SpamKeywords[k])
    {
      assert |SpamKeywords[k]| > 0;
    }
    PlainTextIsNotSpam("");
  }

  /** Any text made only of special characters is spam. */
  lemma {:induction false} AllSpecialIsSpam(text: string)
    requires text != []
    requires forall i :: 0 <= i < |text| ==> text[i] in SpecialChars
    ensures CountSpecial(text) == |text| && Spam(text)
    decreases |text|
  {
    if |text| > 1 {
      AllSpecialIsSpam(text[..|text| - 1]);
    }
  }

  // -------------------------------------------------------- duplicate proof

  /** `detect_duplicate_payment`: not implemented yet, so no payment proof is ever a duplicate. */
  function DetectDuplicatePayment(imageData: seq<bv8>, userId: int): (duplicate: bool)
    ensures !duplicate
  {
    false
  }

  // ---------------------------------------------------------- random text

  /** `(string.ascii_lowercase + string.digits)[j]`. */
  function AlphabetChar(j: nat): (c: char)
    requires j < 36
    ensures ('a' <= c <= 'z') || ('0' <= c <= '9')
  {
    if j < 26 then ('a' as int + j) as char else ('0' as int + j - 26) as char
  }

  predicate LowerAlnum(c: char) {
    ('a' <= c <= 'z') || ('0' <= c <= '9')
  }

  function AlphabetIndex(c: char): (j: nat)
    requires LowerAlnum(c)
    ensures j < 36 && AlphabetChar(j) == c
  {
    if 'a' <= c <= 'z' then c as int - 'a' as int else c as int - '0' as int + 26
  }

  /**
   * `random_string(length)`: `draws[i]` is what the random source picks for
   * position `i`, taken modulo the 36 letters and digits.
   */
  function RandomString(length: nat, draws: seq<nat>): (s: string)
    requires |draws| == length
    ensures |s| == length
    ensures forall i :: 0 <= i < |s| ==> LowerAlnum(s[i])
  {
    seq(length, i requires 0 <= i < length => AlphabetChar(draws[i] % 36))
  }

  /** Every string of lowercase letters and digits is a possible result. */
  lemma RandomStringReachesAll(s: string)
    requires forall i :: 0 <= i < |s| ==> LowerAlnum(s[i])
    ensures exists draws: seq<nat> :: |draws| == |s| && RandomString(|s|, draws) == s
  {
    var draws := seq(|s|, i requires 0 <= i < |s| => AlphabetIndex(s[i]));
    assert RandomString(|s|, draws) == s;
  }
}
