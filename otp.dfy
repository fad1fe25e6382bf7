/** One-time-code extraction from message text: the global regular
    expression /\b(\d{4,8})\b/ of app.js run with `exec`, which yields the
    leftmost match. `\b` and `\d` take their ECMAScript meaning (section 22.2
    of ECMA-262, RegExp): without the `u` and `i` flags the word characters are
    exactly [A-Za-z0-9_], and positions outside the string are not word
    characters. */
module Otp {
  import opened Wrappers

  const MinDigits: nat := 4
  const MaxDigits: nat := 8

  predicate IsDigit(c: char) {
    '0' <= c <= '9'
  }

  /** The word characters of `\b` and `\w`. */
  predicate IsWordChar(c: char) {
    'a' <= c <= 'z' || 'A' <= c <= 'Z' || IsDigit(c) || c == '_'
  }

  /** IsWordChar(e) of the RegExp semantics: false off either end. */
  predicate WordAt(s: string, i: int) {
    0 <= i < |s| && IsWordChar(s[i])
  }

  /** The assertion `\b` at position i (between s[i-1] and s[i]). */
  predicate Boundary(s: string, i: int) {
    WordAt(s, i - 1) != WordAt(s, i)
  }

  /** s[p..p+k] exists and is all digits. */
  predicate DigitsAt(s: string, p: nat, k: nat) {
    p + k <= |s| && forall j :: p <= j < p + k ==> IsDigit(s[j])
  }

  // ---------------------------------------------------------------------
  // The regular expression as its engine runs it at one start position

  /** The greedy quantifier `\d{4,8}` followed by `\b`, from start p:
      the engine tries k digits, k = 8 first, backtracking down to 4, and
      keeps the first k after which `\b` holds. */
  function TryCount(s: string, p: nat, k: nat): Option<nat>
    decreases k
  {
    if k < MinDigits then None
    else if DigitsAt(s, p, k) && Boundary(s, p + k) then Some(k)
    else TryCount(s, p, k - 1)
  }

  /** The whole pattern at start p: `\b`, then the quantified digits. */
  function MatchAt(s: string, p: nat): Option<nat> {
    if Boundary(s, p) then TryCount(s, p, MaxDigits) else None
  }

  // ---------------------------------------------------------------------
  // What a match is, stated without the engine

  /** The number of consecutive digits starting at p. */
  function RunLength(s: string, p: nat): (n: nat)
    requires p <= |s|
    ensures DigitsAt(s, p, n)
    ensures p + n < |s| ==> !IsDigit(s[p + n])
    decreases |s| - p
  {
    if p < |s| && IsDigit(s[p]) then 1 + RunLength(s, p + 1) else 0
  }

  /** A code starts at p: a maximal run of 4 to 8 digits, with no word
      character immediately before it or immediately after it. */
  predicate OtpAt(s: string, p: nat) {
    p < |s|
    && (p == 0 || !IsWordChar(s[p - 1]))
    && MinDigits <= RunLength(s, p) <= MaxDigits
    && (p + RunLength(s, p) == |s| || !IsWordChar(s[p + RunLength(s, p)]))
  }

  /** p is the leftmost start of a code. */
  predicate FirstOtpAt(s: string, p: nat) {
    OtpAt(s, p) && forall q :: 0 <= q < p ==> !OtpAt(s, q)
  }

  /** The code found at p. */
  function CodeAt(s: string, p: nat): string
    requires p <= |s|
  {
    s[p..p + RunLength(s, p)]
  }

  /** `code` is the leftmost code of s. */
  ghost predicate IsFirstOtp(s: string, code: string) {
    exists p :: 0 <= p < |s| && FirstOtpAt(s, p) && code == CodeAt(s, p)
  }

  /** s holds no code at all. */
  predicate NoOtp(s: string) {
    forall p :: 0 <= p < |s| ==> !OtpAt(s, p)
  }

  // ---------------------------------------------------------------------
  // The engine agrees with the statement

  /** Trying counts from k down finds the whole run and nothing shorter:
      a shorter count is followed by another digit, so `\b` fails after it. */
  lemma {:induction false} TryCountFindsRun(s: string, p: nat, k: nat)
    requires p <= |s| && k <= MaxDigits
    ensures var n := RunLength(s, p);
      TryCount(s, p, k) == if MinDigits <= n <= k && !WordAt(s, p + n) then Some(n) else None
  {
    var n := RunLength(s, p);
    if k >= MinDigits {
      TryCountFindsRun(s, p, k - 1);
      assert DigitsAt(s, p, n);
      if k > n {
        assert !DigitsAt(s, p, k) by {
          if p + k <= |s| {
            assert !IsDigit(s[p + n]);
          }
        }
      } else {
        assert DigitsAt(s, p, k);
        assert WordAt(s, p + k - 1);
        if k < n {
          assert WordAt(s, p + k);
        }
      }
    }
  }

  /** The regular expression matches at p exactly where a code starts, and
      then it matches the whole digit run. */
  lemma MatchAtIsOtpAt(s: string, p: nat)
    requires p <= |s|
    ensures MatchAt(s, p) == if OtpAt(s, p) then Some(RunLength(s, p)) else None
  {
    TryCountFindsRun(s, p, MaxDigits);
    var n := RunLength(s, p);
    if n >= MinDigits {
      assert IsDigit(s[p]) && WordAt(s, p);
    }
  }

  // ---------------------------------------------------------------------
  // extractOtp

  /** `extractOtp(text)`: null for absent or empty text; otherwise the
      `exec` loop's first match, kept when it has 4 to 8 characters. The
      result is the leftmost code of the text, and null only when the text
      holds none. */
  method ExtractOtp(text: Option<string>) returns (code: Option<string>)
    ensures text.None? || text == Some("") ==> code == None
    ensures code.Some? ==> MinDigits <= |code.value| <= MaxDigits
    ensures code.Some? ==> forall i :: 0 <= i < |code.value| ==> IsDigit(code.value[i])
    ensures code.Some? ==> text.Some? && IsFirstOtp(text.value, code.value)
    ensures code.None? && text.Some? ==> NoOtp(text.value)
  {
    if text.None? || text.value == "" {
      return None;
    }
    var s := text.value;
    var i := 0;
    while i < |s|
      invariant 0 <= i <= |s|
      invariant forall q :: 0 <= q < i ==> !OtpAt(s, q)
    {
      var m := MatchAt(s, i);
      MatchAtIsOtpAt(s, i);
      if m.Some? && MinDigits <= m.value <= MaxDigits {
        code := Some(s[i..i + m.value]);
        assert FirstOtpAt(s, i) && code.value == CodeAt(s, i);
        return;
      }
      i := i + 1;
    }
    return None;
  }

  // ---------------------------------------------------------------------
  // Properties of codes

  /** A run of nine or more digits holds no code anywhere inside it. */
  lemma LongRunHasNoCode(s: string, p: nat, q: nat)
    requires p <= q < |s| && (p == 0 || !IsDigit(s[p - 1]))
    requires RunLength(s, p) > MaxDigits && q < p + RunLength(s, p)
    ensures !OtpAt(s, q)
  {
    if q > p {
      assert DigitsAt(s, p, RunLength(s, p));
      assert IsDigit(s[q - 1]);
    }
  }

  /** Digits glued to a letter or '_' on either side are never a code. */
  lemma {:induction false} GluedDigitsAreNoCode(s: string, p: nat, q: nat)
    requires p < |s| && (p == 0 || !IsDigit(s[p - 1]))
    requires p <= q < p + RunLength(s, p)
    requires (p > 0 && IsWordChar(s[p - 1]))
          || (p + RunLength(s, p) < |s| && IsWordChar(s[p + RunLength(s, p)]))
    ensures !OtpAt(s, q)
  {
    var n := RunLength(s, p);
    assert DigitsAt(s, p, n);
    if q > p {
      assert IsDigit(s[q - 1]);
    } else {
      assert RunLength(s, q) == n;
    }
  }

  /** A string without digits holds no code. */
  lemma NoDigitsNoCode(s: string)
    requires forall i :: 0 <= i < |s| ==> !IsDigit(s[i])
    ensures NoOtp(s)
  {
    forall p | 0 <= p < |s| ensures !OtpAt(s, p) {
      assert RunLength(s, p) == 0;
    }
  }

  /** A code preceded only by text without digits, ending in a non-word
      character, and followed by a non-word character is the first code. */
  lemma {:induction false} CodeAfterPlainText(pre: string, code: string, post: string)
    requires |pre| > 0 && !IsWordChar(pre[|pre| - 1])
    requires forall i :: 0 <= i < |pre| ==> !IsDigit(pre[i])
    requires MinDigits <= |code| <= MaxDigits
    requires forall i :: 0 <= i < |code| ==> IsDigit(code[i])
    requires post == [] || !IsWordChar(post[0])
    ensures IsFirstOtp(pre + code + post, code)
  {
    var s := pre + code + post;
    var p := |pre|;
    RunLengthOfDigits(s, p, |code|);
    forall q | 0 <= q < p ensures !OtpAt(s, q) {
      assert s[q] == pre[q];
    }
    assert s[p..p + |code|] == code;
    assert FirstOtpAt(s, p) && CodeAt(s, p) == code;
  }

  /** A run of exactly k digits, followed by a non-digit or the end. */
  lemma {:induction false} RunLengthOfDigits(s: string, p: nat, k: nat)
    requires DigitsAt(s, p, k) && (p + k == |s| || !IsDigit(s[p + k]))
    ensures RunLength(s, p) == k
    decreases k
  {
    if k > 0 {
      RunLengthOfDigits(s, p + 1, k - 1);
    }
  }

  /** From position p on, no four consecutive characters are all digits. */
  predicate NoFourDigitsFrom(s: string, p: nat)
    decreases |s| - p
  {
    p + 4 > |s|
    || (!(IsDigit(s[p]) && IsDigit(s[p + 1]) && IsDigit(s[p + 2]) && IsDigit(s[p + 3]))
        && NoFourDigitsFrom(s, p + 1))
  }

  /** A string in which no four consecutive characters are digits holds no code. */
  lemma {:induction false} ShortRunsNoCode(s: string, p: nat)
    requires NoFourDigitsFrom(s, p)
    ensures forall q :: p <= q < |s| ==> !OtpAt(s, q)
    decreases |s| - p
  {
    if p + 4 <= |s| {
      ShortRunsNoCode(s, p + 1);
    } else {
      forall q | p <= q < |s| ensures !OtpAt(s, q) {
        assert DigitsAt(s, q, RunLength(s, q));
      }
    }
  }

  /** "Your code is 48213, expires in 5 minutes" yields "48213". */
  lemma CodeInSentence(s: string)
    requires s == "Your code is " + "48213" + ", expires in 5 minutes"
    ensures IsFirstOtp(s, "48213")
  {
    var pre := "Your code is ";
    assert forall i :: 0 <= i < |pre| ==> !IsDigit(pre[i]);
    CodeAfterPlainText(pre, "48213", ", expires in 5 minutes");
  }

  /** "hello world" yields no code. */
  lemma NoCodeInGreeting()
    ensures NoOtp("hello world")
  {
    NoDigitsNoCode("hello world");
  }

  /** "order #12 total $3.50" yields no code: it has no four digits in a row. */
  lemma NoCodeInPrice(s: string)
    requires s == "order #12 total $3.50"
    ensures NoOtp(s)
  {
    assert |s| == 21;
    assert NoFourDigitsFrom(s, 18);
    assert NoFourDigitsFrom(s, 17);
    assert NoFourDigitsFrom(s, 16);
    assert NoFourDigitsFrom(s, 15);
    assert NoFourDigitsFrom(s, 14);
    assert NoFourDigitsFrom(s, 13);
    assert NoFourDigitsFrom(s, 12);
    assert NoFourDigitsFrom(s, 11);
    assert NoFourDigitsFrom(s, 10);
    assert NoFourDigitsFrom(s, 9);
    assert NoFourDigitsFrom(s, 8);
    assert NoFourDigitsFrom(s, 7);
    assert NoFourDigitsFrom(s, 6);
    assert NoFourDigitsFrom(s, 5);
    assert NoFourDigitsFrom(s, 4);
    assert NoFourDigitsFrom(s, 3);
    assert NoFourDigitsFrom(s, 2);
    assert NoFourDigitsFrom(s, 1);
    assert NoFourDigitsFrom(s, 0);
    ShortRunsNoCode(s, 0);
  }
}
