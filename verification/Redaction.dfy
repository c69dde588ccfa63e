/** What the validators of src/assistants/ ask of identifiers and texts: size, white space, and no
    word that marks a secret or an internal payload. */
module Redaction {

  // ------------------------------------------------------------------- marker words

  predicate WordChar(c: char) {
    'a' <= c <= 'z' || 'A' <= c <= 'Z' || '0' <= c <= '9' || c == '_'
  }

  /** A word boundary before position `i`. */
  predicate Boundary(s: string, i: nat)
    requires i <= |s|
  {
    (i > 0 && WordChar(s[i - 1])) != (i < |s| && WordChar(s[i]))
  }

  predicate WordAt(s: string, word: string, i: nat) {
    && i + |word| <= |s| && s[i..i + |word|] == word
    && Boundary(s, i) && Boundary(s, i + |word|)
  }

  predicate HasWord(s: string, word: string) {
    exists i :: 0 <= i <= |s| && WordAt(s, word, i)
  }

  /** The start of an API key: `sk-` and eight more characters of a key. */
  predicate KeyAt(s: string, i: nat) {
    && i + 11 <= |s| && s[i..i + 3] == "sk-" && Boundary(s, i)
    && forall k :: i + 3 <= k < i + 11 ==> WordChar(s[k]) || s[k] == '-'
  }

  predicate HasKey(s: string) {
    exists i :: 0 <= i <= |s| && KeyAt(s, i)
  }

  /** `isRedactionSafeText` of guardian-consultation-validator.ts. */
  predicate GuardianSafe(s: string) {
    && !HasKey(s)
    && !HasWord(s, "secret") && !HasWord(s, "secretRef")
    && !HasWord(s, "secretReference") && !HasWord(s, "secretValue")
    && !HasWord(s, "providerPayload")
    && !HasWord(s, "rawKnowledge") && !HasWord(s, "rawMemory") && !HasWord(s, "rawTranscript")
  }

  /** `isRedactionSafeText` of main-assistant-delegation-policy-validator.ts: one word more. */
  predicate DelegationSafe(s: string) {
    GuardianSafe(s) && !HasWord(s, "transportInternals")
  }

  /** `s[i..j]` is a whole word of `s`: word characters with none before and none behind. */
  predicate WholeWord(s: string, i: nat, j: nat) {
    && i < j <= |s| && (forall k :: i <= k < j ==> WordChar(s[k]))
    && (i > 0 ==> !WordChar(s[i - 1])) && (j < |s| ==> !WordChar(s[j]))
  }

  /** A marker of word characters is found exactly where it is one of the text's whole words. */
  lemma MarkersAreWholeWords(s: string, word: string)
    requires word != "" && forall c :: c in word ==> WordChar(c)
    ensures HasWord(s, word) <==> exists i: nat, j: nat :: WholeWord(s, i, j) && s[i..j] == word
  {
    forall i: nat | i + |word| <= |s| && s[i..i + |word|] == word
      ensures WordAt(s, word, i) <==> WholeWord(s, i, i + |word|)
    {
      assert forall k :: 0 <= k < |word| ==> s[i + k] == word[k] && word[k] in word;
      assert forall k :: i <= k < i + |word| ==> s[k] == word[k - i];
    }
    if i: nat, j: nat :| WholeWord(s, i, j) && s[i..j] == word {
      assert j == i + |word|;
      assert WordAt(s, word, i);
    }
  }

  /** So a text of word characters alone, such as a marker itself, holds no other word. */
  lemma OneWordHoldsItself(s: string, word: string)
    requires s != "" && word != "" && (forall c :: c in s ==> WordChar(c)) && forall c :: c in word ==> WordChar(c)
    ensures HasWord(s, word) <==> s == word
  {
    hide HasWord;
    MarkersAreWholeWords(s, word);
    assert forall k :: 0 <= k < |s| ==> s[k] in s;
    if i: nat, j: nat :| WholeWord(s, i, j) && s[i..j] == word {
      assert i == 0;
      assert j == |s|;
      assert s[0..|s|] == s;
    }
    if s == word {
      assert WholeWord(s, 0, |s|) && s[0..|s|] == s;
    }
  }

  /** `sk-` where a word begins, and eight more characters. */
  predicate KeyStarts(s: string, i: nat) {
    && i + 11 <= |s| && s[i] == 's' && s[i + 1] == 'k' && s[i + 2] == '-' && (i > 0 ==> !WordChar(s[i - 1]))
    && forall k :: i + 3 <= k < i + 11 ==> WordChar(s[k]) || s[k] == '-'
  }

  /** A key is found exactly where one starts a word, whatever follows its first eight characters. */
  lemma KeysStartWords(s: string)
    ensures HasKey(s) <==> exists i: nat :: KeyStarts(s, i)
  {
    forall i: nat
      ensures KeyAt(s, i) <==> KeyStarts(s, i)
    {
      if i + 11 <= |s| {
        var cut := s[i..i + 3];
        assert cut[0] == s[i] && cut[1] == s[i + 1] && cut[2] == s[i + 2];
      }
    }
  }

  const MARKERS: set<string> := {
    "secret", "secretRef", "secretReference", "secretValue", "providerPayload", "rawKnowledge", "rawMemory",
    "rawTranscript"}

  lemma MarkersAreWords(word: string)
    requires word in MARKERS + {"transportInternals"}
    ensures word != "" && forall c :: c in word ==> WordChar(c)
  {
  }

  /** A text is safe exactly when no key starts in it and no whole word of it is a marker; the second
      list differs in one word. */
  lemma SafeExactly(s: string)
    ensures GuardianSafe(s)
            <==> (forall i: nat :: !KeyStarts(s, i))
                 && forall i: nat, j: nat :: WholeWord(s, i, j) ==> s[i..j] !in MARKERS
    ensures DelegationSafe(s)
            <==> (forall i: nat :: !KeyStarts(s, i))
                 && forall i: nat, j: nat :: WholeWord(s, i, j) ==> s[i..j] !in MARKERS + {"transportInternals"}
  {
    hide HasKey, HasWord, KeyStarts, WordChar;
    KeysStartWords(s);
    forall word | word in MARKERS + {"transportInternals"}
      ensures HasWord(s, word) <==> exists i: nat, j: nat :: WholeWord(s, i, j) && s[i..j] == word
    {
      MarkersAreWords(word);
      MarkersAreWholeWords(s, word);
    }
    assert GuardianSafe(s) <==> !HasKey(s) && forall word :: word in MARKERS ==> !HasWord(s, word);
  }

  // ------------------------------------------------------------------- identifiers and texts

  /** `\s`, which `trim` removes too. */
  predicate IsSpace(c: char) {
    || '\U{0009}' <= c <= '\U{000D}' || c == ' ' || c == '\U{00A0}' || c == '\U{1680}'
    || '\U{2000}' <= c <= '\U{200A}' || c == '\U{2028}' || c == '\U{2029}' || c == '\U{202F}' || c == '\U{205F}'
    || c == '\U{3000}' || c == '\U{FEFF}'
  }

  /** `readIdentifier` of guardian-consultation-validator.ts. */
  predicate GuardianId(s: string) {
    1 <= |s| <= 160 && forall i :: 0 <= i < |s| ==> !IsSpace(s[i])
  }

  /** `readIdentifier` of main-assistant-delegation-policy-validator.ts. */
  predicate DelegationId(s: string) {
    GuardianId(s) && DelegationSafe(s)
  }

  predicate Printable(s: string) {
    |s| <= 1_000 && exists i :: 0 <= i < |s| && !IsSpace(s[i])
  }

  /** An entry of `readSafeStringArray`, on either side. */
  predicate GuardianText(s: string) {
    Printable(s) && GuardianSafe(s)
  }

  predicate DelegationText(s: string) {
    Printable(s) && DelegationSafe(s)
  }

  predicate LowerOrDigit(c: char) {
    'a' <= c <= 'z' || '0' <= c <= '9'
  }

  /** `isAgentSpecificationIdentifier`: a letter first, and each separator between two others. */
  predicate SpecificationId(s: string) {
    && |s| > 0 && 'a' <= s[0] <= 'z'
    && forall i :: 0 <= i < |s| ==> LowerOrDigit(s[i]) || (s[i] in "._-" && i + 1 < |s| && LowerOrDigit(s[i + 1]))
  }

  predicate NoRepeats<T(==)>(s: seq<T>) {
    forall i, j :: 0 <= i < j < |s| ==> s[i] != s[j]
  }

  /** `readIdentifierArray`. */
  predicate Identifiers(s: seq<string>) {
    NoRepeats(s) && forall id :: id in s ==> DelegationId(id)
  }

  // ------------------------------------------------------------------- strings without markers

  lemma SliceAgrees(s: string, word: string, i: nat, k: nat)
    requires i + |word| <= |s| && s[i..i + |word|] == word && k < |word|
    ensures s[i + k] == word[k]
  {
    assert s[i..i + |word|][k] == s[i + k];
  }

  /** A word is absent where none of its letters at `k` is in a fitting place. */
  lemma LetterMissing(s: string, word: string, k: nat)
    requires k < |word|
    requires forall i: nat :: k <= i && i - k + |word| <= |s| ==> s[i] != word[k]
    ensures !HasWord(s, word)
  {
    forall i | 0 <= i <= |s|
      ensures !WordAt(s, word, i)
    {
      if i + |word| <= |s| && s[i..i + |word|] == word {
        SliceAgrees(s, word, i, k);
      }
    }
  }

  /** The shortest marker has six characters. */
  lemma ShortIsSafe(s: string)
    requires |s| < 6
    ensures DelegationSafe(s)
  {
  }

  const EXTERNAL_SIDE_EFFECTS := "approve-external-side-effects"

  lemma LettersOfTheConstant(i: nat)
    requires i < |EXTERNAL_SIDE_EFFECTS|
    ensures EXTERNAL_SIDE_EFFECTS[i] !in "PwIk" && !IsSpace(EXTERNAL_SIDE_EFFECTS[i])
    ensures EXTERNAL_SIDE_EFFECTS[i] == 'c' ==> i == 26
  {
  }

  /** The one approval the delegation policy adds by itself is an identifier both sides take. */
  lemma ConstantIsIdentifier()
    ensures DelegationId(EXTERNAL_SIDE_EFFECTS)
  {
    var s := EXTERNAL_SIDE_EFFECTS;
    assert |s| == 29;
    hide HasWord, HasKey, IsSpace;
    forall i: nat | i < |s|
      ensures s[i] !in "PwIk" && !IsSpace(s[i]) && (s[i] == 'c' ==> i == 26)
    {
      LettersOfTheConstant(i);
    }
    SecretsMissing(s);
    LetterMissing(s, "providerPayload", 8);
    LetterMissing(s, "rawKnowledge", 2);
    LetterMissing(s, "rawMemory", 2);
    LetterMissing(s, "rawTranscript", 2);
    LetterMissing(s, "transportInternals", 9);
    NoKey(s);
  }

  lemma SecretsMissing(s: string)
    requires |s| == 29 && s[24] == 'f' && forall i: nat :: i < |s| && s[i] == 'c' ==> i == 26
    ensures !HasWord(s, "secret") && !HasWord(s, "secretRef")
    ensures !HasWord(s, "secretReference") && !HasWord(s, "secretValue")
  {
    LetterMissing(s, "secretRef", 2);
    LetterMissing(s, "secretReference", 2);
    LetterMissing(s, "secretValue", 2);
    forall i | 0 <= i <= |s|
      ensures !WordAt(s, "secret", i)
    {
      SecretLetters(s, i);
    }
  }

  lemma SecretLetters(s: string, i: nat)
    ensures i + 6 <= |s| && s[i..i + 6] == "secret" ==> s[i] == 's' && s[i + 2] == 'c'
  {
    if i + 6 <= |s| && s[i..i + 6] == "secret" {
      SliceAgrees(s, "secret", i, 0);
      SliceAgrees(s, "secret", i, 2);
    }
  }

  lemma NoKey(s: string)
    requires forall i: nat :: i < |s| ==> s[i] != 'k'
    ensures !HasKey(s)
  {
    forall i | 0 <= i <= |s|
      ensures !KeyAt(s, i)
    {
      if i + 11 <= |s| && s[i..i + 3] == "sk-" {
        SliceAgrees(s, "sk-", i, 1);
      }
    }
  }
}
