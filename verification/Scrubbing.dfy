/** Keeping credentials out of error texts (pkg/utils/cred_strip.go). */
module Scrubbing {
  import opened Errors

  const TRIGGER_WORDS := ["password", "token", "secret", "private key", "certificate", "avns_"]

  const REDACTED_WORDS :=
    ["error", "message", "has", "been", "removed", "because", "it", "contains", "possible", "credentials"]

  /** The words with blanks between them. */
  function Sentence(words: seq<string>): string {
    if |words| == 0 then ""
    else if |words| == 1 then words[0]
    else Sentence(words[..|words| - 1]) + " " + words[|words| - 1]
  }

  const REDACTED := Sentence(REDACTED_WORDS)

  predicate OccursAt(text: string, word: string, i: int) {
    0 <= i <= |text| - |word| && forall j :: 0 <= j < |word| ==> text[i + j] == word[j]
  }

  predicate Contains(text: string, word: string) {
    exists i :: 0 <= i <= |text| - |word| && OccursAt(text, word, i)
  }

  /** strings.ToLower, given what it does to one character. */
  function ToLower(text: string, lower: char -> char): string {
    seq(|text|, (i: int) requires 0 <= i < |text| => lower(text[i]))
  }

  /** The text has a trigger word in it, in some mix of cases. */
  predicate Reveals(text: string, lower: char -> char) {
    exists k :: 0 <= k < |TRIGGER_WORDS| && Contains(ToLower(text, lower), TRIGGER_WORDS[k])
  }

  predicate Plain(c: char) {
    'a' <= c <= 'z' || c == ' ' || c == ':'
  }

  /** Lower-case letters, the blank and the colon are already lower case; capitals are 32 before their letters. */
  ghost predicate LowerCases(lower: char -> char) {
    && (forall c :: Plain(c) ==> lower(c) == c)
    && forall c :: 'A' <= c <= 'Z' ==> lower(c) == c + ' '
  }

  function CheckForPossibleCredentials(e: Error, lower: char -> char): Error {
    if Reveals(e.text, lower) then PlainError(REDACTED) else e
  }

  // ----- The replacement text itself -----

  predicate Lacks(text: string, c: char) {
    c !in text
  }

  lemma {:induction false} SentenceCharacters(words: seq<string>)
    ensures forall c :: c in Sentence(words) ==> c == ' ' || exists w :: w in words && c in w
  {
    if |words| > 1 {
      SentenceCharacters(words[..|words| - 1]);
    } else if |words| == 1 {
      assert words[0] in words;
    }
  }

  lemma LackingDoesNotContain(text: string, word: string, c: char)
    requires Lacks(text, c) && c in word
    ensures !Contains(text, word)
  {
    forall i | 0 <= i <= |text| - |word|
      ensures !OccursAt(text, word, i)
    {
      var j :| 0 <= j < |word| && word[j] == c;
      assert text[i + j] in text;
    }
  }

  /** A word without blanks occurs in a sentence only within one of its words. */
  lemma {:induction false} SentenceOccurrence(words: seq<string>, word: string)
    requires |word| > 0 && ' ' !in word && forall w :: w in words ==> !Contains(w, word)
    ensures !Contains(Sentence(words), word)
  {
    if |words| > 1 {
      var n := |words| - 1;
      var a, b := Sentence(words[..n]), words[n];
      SentenceOccurrence(words[..n], word);
      forall i | 0 <= i <= |a + " " + b| - |word|
        ensures !OccursAt(a + " " + b, word, i)
      {
        if OccursAt(a + " " + b, word, i) {
          BlankSplits(a, b, word, i);
        }
      }
    } else if |words| == 1 {
      assert words[0] in words;
    }
  }

  lemma OccurrenceCovers(text: string, word: string, i: int, p: int)
    requires OccursAt(text, word, i) && i <= p < i + |word|
    ensures text[p] in word
  {
    assert text[i + (p - i)] == word[p - i];
  }

  lemma OccurrenceStarts(text: string, word: string, i: int)
    requires OccursAt(text, word, i) && |word| > 0
    ensures text[i] == word[0]
  {
    assert text[i + 0] == word[0];
  }

  lemma Shifted(a: string, b: string, word: string, i: int)
    requires OccursAt(a + b, word, i) && i >= |a|
    ensures Contains(b, word)
  {
    forall j | 0 <= j < |word|
      ensures b[i - |a| + j] == word[j]
    {
      assert (a + b)[i + j] == word[j];
    }
    assert OccursAt(b, word, i - |a|);
  }

  lemma BlankSplits(a: string, b: string, word: string, i: int)
    requires OccursAt(a + " " + b, word, i) && |word| > 0 && ' ' !in word
    ensures Contains(a, word) || Contains(b, word)
  {
    if i + |word| <= |a| {
      assert OccursAt(a, word, i);
    } else if i <= |a| {
      OccurrenceCovers(a + " " + b, word, i, |a|);
    } else {
      Shifted(a + " ", b, word, i);
    }
  }

  lemma SecretIsNotThere()
    ensures !Contains(REDACTED, "secret")
  {
    LackingDoesNotContain("message", "secret", 'c');
    LackingDoesNotContain("removed", "secret", 'c');
    LackingDoesNotContain("because", "secret", 'r');
    LackingDoesNotContain("contains", "secret", 'e');
    LackingDoesNotContain("possible", "secret", 'c');
    forall i | 0 <= i <= |"credentials"| - |"secret"|
      ensures !OccursAt("credentials", "secret", i)
    {
      assert "credentials"[i + 0] != 's';
    }
    SentenceOccurrence(REDACTED_WORDS, "secret");
  }

  lemma RedactedCharacters()
    ensures forall c :: c in REDACTED ==> Plain(c)
    ensures Lacks(REDACTED, 'w') && Lacks(REDACTED, 'k') && Lacks(REDACTED, 'f') && Lacks(REDACTED, '_')
  {
    SentenceCharacters(REDACTED_WORDS);
    hide Sentence;
    RedactedWords();
  }

  /** A lower-case letter other than f, k and w. */
  predicate Harmless(c: char) {
    'a' <= c <= 'z' && c != 'f' && c != 'k' && c != 'w'
  }

  predicate AllHarmless(text: string) {
    forall i :: 0 <= i < |text| ==> Harmless(text[i])
  }

  lemma RedactedWords()
    ensures forall w, c :: w in REDACTED_WORDS && c in w ==> Harmless(c)
  {
    assert AllHarmless("error") && AllHarmless("message") && AllHarmless("has") && AllHarmless("been");
    assert AllHarmless("removed") && AllHarmless("because") && AllHarmless("it");
    assert AllHarmless("contains") && AllHarmless("possible") && AllHarmless("credentials");
  }

  lemma PlainTextIsLower(text: string, lower: char -> char)
    requires LowerCases(lower) && forall c :: c in text ==> Plain(c)
    ensures ToLower(text, lower) == text
  {
    forall i | 0 <= i < |text|
      ensures lower(text[i]) == text[i]
    {
      assert text[i] in text;
    }
  }

  lemma RedactedRevealsNothing(lower: char -> char)
    requires LowerCases(lower)
    ensures !Reveals(REDACTED, lower)
  {
    RedactedCharacters();
    PlainTextIsLower(REDACTED, lower);
    hide Contains, Sentence, ToLower;
    LackingDoesNotContain(REDACTED, "password", 'w');
    LackingDoesNotContain(REDACTED, "token", 'k');
    LackingDoesNotContain(REDACTED, "private key", 'k');
    LackingDoesNotContain(REDACTED, "certificate", 'f');
    LackingDoesNotContain(REDACTED, "avns_", '_');
    SecretIsNotThere();
  }

  // ----- Main results -----

  /** No occurrence of a word without the separator's characters reaches across ": ". */
  lemma JoinOccurrence(a: string, b: string, word: string, i: int)
    requires OccursAt(a + ": " + b, word, i) && word != [] && ':' !in word && word[0] != ' '
    ensures Contains(a, word) || Contains(b, word)
  {
    if i + |word| <= |a| {
      assert OccursAt(a, word, i);
    } else if i <= |a| {
      OccurrenceCovers(a + ": " + b, word, i, |a|);
    } else if i == |a| + 1 {
      OccurrenceStarts(a + ": " + b, word, i);
    } else {
      Shifted(a + ": ", b, word, i);
    }
  }

  lemma JoinRevealsNothing(state: string, message: string, lower: char -> char)
    requires LowerCases(lower) && !Reveals(state, lower) && !Reveals(message, lower)
    ensures !Reveals(state + ": " + message, lower)
  {
    var a, b := ToLower(state, lower), ToLower(message, lower);
    assert Plain(':') && Plain(' ');
    assert ToLower(state + ": " + message, lower) == a + ": " + b;
    forall k, i | 0 <= k < |TRIGGER_WORDS|
      ensures !OccursAt(a + ": " + b, TRIGGER_WORDS[k], i)
    {
      var word := TRIGGER_WORDS[k];
      if OccursAt(a + ": " + b, word, i) {
        JoinOccurrence(a, b, word, i);
      }
    }
  }

  /** The text "state: message" of a scrubbed error has no trigger word in it, whatever the error was. */
  lemma ScrubbedRevealsNothing(state: string, e: Error, lower: char -> char)
    requires LowerCases(lower) && !Reveals(state, lower)
    ensures !Reveals(state + ": " + CheckForPossibleCredentials(e, lower).text, lower)
  {
    RedactedRevealsNothing(lower);
    JoinRevealsNothing(state, CheckForPossibleCredentials(e, lower).text, lower);
  }

  lemma ScrubbingIsIdempotent(e: Error, lower: char -> char)
    requires LowerCases(lower)
    ensures var once := CheckForPossibleCredentials(e, lower);
            CheckForPossibleCredentials(once, lower) == once
  {
    RedactedRevealsNothing(lower);
  }

  /** The words are these six. */
  lemma RevealsMeans(text: string, lower: char -> char)
    ensures var t := ToLower(text, lower);
            Reveals(text, lower)
            <==> || Contains(t, "password") || Contains(t, "token") || Contains(t, "secret")
                 || Contains(t, "private key") || Contains(t, "certificate") || Contains(t, "avns_")
  {
    hide Contains, ToLower;
    var t := ToLower(text, lower);
    assert TRIGGER_WORDS[0] == "password" && TRIGGER_WORDS[1] == "token" && TRIGGER_WORDS[2] == "secret";
    assert TRIGGER_WORDS[3] == "private key" && TRIGGER_WORDS[4] == "certificate" && TRIGGER_WORDS[5] == "avns_";
  }

  // ----- Texts that are put together without scrubbing -----

  lemma ContainsMore(before: string, text: string, after: string, word: string)
    requires Contains(text, word)
    ensures Contains(before + text + after, word)
  {
    var i :| 0 <= i <= |text| - |word| && OccursAt(text, word, i);
    var all := before + text + after;
    forall j | 0 <= j < |word|
      ensures all[|before| + i + j] == word[j]
    {
      assert all[|before| + (i + j)] == text[i + j];
    }
    assert OccursAt(all, word, |before| + i);
  }

  lemma PartReveals(before: string, text: string, after: string, lower: char -> char)
    requires Reveals(text, lower)
    ensures Reveals(before + text + after, lower)
  {
    var k :| 0 <= k < |TRIGGER_WORDS| && Contains(ToLower(text, lower), TRIGGER_WORDS[k]);
    var a, t, b := ToLower(before, lower), ToLower(text, lower), ToLower(after, lower);
    assert ToLower(before + text + after, lower) == a + t + b;
    ContainsMore(a, t, b, TRIGGER_WORDS[k]);
  }

  /** Joined with ": ", two texts have a trigger word in them exactly if one of them has. */
  lemma JoinRevealsIff(a: string, b: string, lower: char -> char)
    requires LowerCases(lower)
    ensures Reveals(a + ": " + b, lower) <==> Reveals(a, lower) || Reveals(b, lower)
  {
    hide Reveals, LowerCases;
    if Reveals(a, lower) {
      PartReveals("", a, ": " + b, lower);
      assert "" + a + (": " + b) == a + ": " + b;
    } else if Reveals(b, lower) {
      PartReveals(a + ": ", b, "", lower);
      assert (a + ": ") + b + "" == a + ": " + b;
    } else {
      JoinRevealsNothing(a, b, lower);
    }
  }

  const UNKNOWN_WORDS := ["unknown", "error", "while", "calling", "Aiven", "API"]

  /** The text that replaces a response body. */
  const UNKNOWN := Sentence(UNKNOWN_WORDS)

  predicate Mild(c: char) {
    (('a' <= c <= 'z' || 'A' <= c <= 'Z') && c !in "stST") || c == ' '
  }

  predicate AllMild(text: string) {
    forall i :: 0 <= i < |text| ==> Mild(text[i])
  }

  lemma UnknownIsMild()
    ensures forall c :: c in UNKNOWN ==> Mild(c)
  {
    SentenceCharacters(UNKNOWN_WORDS);
    hide Sentence;
    assert AllMild("unknown") && AllMild("error") && AllMild("while");
    assert AllMild("calling") && AllMild("Aiven") && AllMild("API");
  }

  /** All trigger words have an s or a t in them. */
  lemma UnknownRevealsNothing(lower: char -> char)
    requires LowerCases(lower)
    ensures !Reveals(UNKNOWN, lower)
  {
    UnknownIsMild();
    hide Sentence, Contains;
    var text := ToLower(UNKNOWN, lower);
    forall i | 0 <= i < |text|
      ensures text[i] != 's' && text[i] != 't'
    {
      assert Mild(UNKNOWN[i]);
    }
    LackingDoesNotContain(text, "password", 's');
    LackingDoesNotContain(text, "token", 't');
    LackingDoesNotContain(text, "secret", 't');
    LackingDoesNotContain(text, "private key", 't');
    LackingDoesNotContain(text, "certificate", 't');
    LackingDoesNotContain(text, "avns_", 's');
  }
}
