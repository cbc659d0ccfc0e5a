/** The transcriber's hard-coded dictionaries and sound groupings.
    Keys are single Arabic code points; values are X-SAMPA phoneme strings. */
module Tables {

  /** Arabic consonant letters and their X-SAMPA transcription.  The two glide letters
      U+064A and U+0648 are here as `y` and `w`, and ta marbuta U+0629 as `a`. */
  const CONSONANTS: map<char, string> := map[
    '\U{0628}' := "b", '\U{062A}' := "t", '\U{062B}' := "T", '\U{062C}' := "dZ",
    '\U{062D}' := "X\\", '\U{062E}' := "x", '\U{062F}' := "d", '\U{0630}' := "D",
    '\U{0631}' := "4", '\U{0632}' := "z", '\U{0633}' := "s", '\U{0634}' := "S",
    '\U{0635}' := "s_?\\", '\U{0636}' := "d_?\\", '\U{0637}' := "t_?\\", '\U{0638}' := "T_?\\",
    '\U{0639}' := "?\\", '\U{063A}' := "G", '\U{0641}' := "f", '\U{0642}' := "q",
    '\U{0643}' := "k", '\U{0644}' := "l", '\U{0645}' := "m", '\U{0646}' := "n",
    '\U{0647}' := "h", '\U{064A}' := "y", '\U{0648}' := "w", '\U{0629}' := "a"]

  /** The isolated short-vowel marks fatha, damma and kasra. */
  const SHORT_VOWELS: map<char, string> := map['\U{064E}' := "a", '\U{064F}' := "u", '\U{0650}' := "I"]

  /** Long-vowel letters: alif, ya, waw and alif maqsura. */
  const LONG_VOWELS: map<char, string> :=
    map['\U{0627}' := "A:", '\U{064A}' := "i:", '\U{0648}' := "u:", '\U{0649}' := "A:"]

  /** Letters that combine a carrier with hamza. */
  const COMBINED_HAMZA: map<char, string> := map['\U{0623}' := "?a", '\U{0624}' := "?u", '\U{0625}' := "?I"]

  /** The non-vowel marks shadda and sukun. */
  const DIACRITICS: map<char, string> := map['\U{0651}' := ":", '\U{0652}' := ""]

  /** The three tanween (case-ending) marks. */
  const TANWEEN: map<char, string> := map['\U{064B}' := "an", '\U{064C}' := "un", '\U{064D}' := "in"]

  /** The letters of the definite article: alif, lam. */
  const AL: seq<char> := ['\U{0627}', '\U{0644}']

  /** Alif maqsura, the word-final letter the ending rules look for. */
  const ALIF_MAQSURA: char := '\U{0649}'

  /** Phonemes (not letters) before which the article's lam assimilates. */
  const SUN_LETTERS: seq<string> :=
    ["t", "T", "dZ", "D", "4", "z", "s", "S", "s_?\\", "d_?\\", "t_?\\", "T_?\\", "l", "n"]

  /** Long-vowel tokens and the consonant reading each one takes. */
  const LONG_TO_SHORT: map<string, string> := map["A:" := "?a", "u:" := "w", "i:" := "y"]

  /** The long-vowel tokens of the slot array are exactly the keys of LONG_TO_SHORT. */
  predicate IsLongVowel(p: string) {
    p in LONG_TO_SHORT
  }

  /** No consonant reading of a long vowel is itself a long vowel, so rewriting a slot
      through LONG_TO_SHORT always removes a long vowel. */
  lemma LongToShortLeavesNoLongVowel(p: string)
    requires p in LONG_TO_SHORT
    ensures !IsLongVowel(LONG_TO_SHORT[p])
    ensures LONG_TO_SHORT[p] in {"?a", "w", "y"}
  {
  }

  /** The code-point range each first-pass table draws its keys from. */
  lemma TableKeyRanges(c: char)
    ensures c in CONSONANTS ==> '\U{0628}' <= c <= '\U{064A}'
    ensures c in COMBINED_HAMZA ==> '\U{0623}' <= c <= '\U{0625}'
    ensures c in DIACRITICS ==> '\U{0651}' <= c <= '\U{0652}'
    ensures c in TANWEEN ==> '\U{064B}' <= c <= '\U{064D}'
    ensures c in SHORT_VOWELS ==> '\U{064E}' <= c <= '\U{0650}'
    ensures c in LONG_VOWELS ==> c == '\U{0627}' || c == '\U{0648}' || c == '\U{0649}' || c == '\U{064A}'
  {
  }

  /** The only letters in more than one of the first-pass tables are the two glides, which
      are in both CONSONANTS and LONG_VOWELS; every other pair of tables has disjoint keys. */
  lemma TableKeysOverlapOnlyInGlides(c: char)
    ensures c in CONSONANTS && c in LONG_VOWELS <==> c == '\U{064A}' || c == '\U{0648}'
    ensures c in CONSONANTS ==> c !in COMBINED_HAMZA && c !in DIACRITICS && c !in TANWEEN && c !in SHORT_VOWELS
    ensures c in LONG_VOWELS ==> c !in COMBINED_HAMZA && c !in DIACRITICS && c !in TANWEEN && c !in SHORT_VOWELS
    ensures c in COMBINED_HAMZA ==> c !in DIACRITICS && c !in TANWEEN && c !in SHORT_VOWELS
    ensures c in DIACRITICS ==> c !in TANWEEN && c !in SHORT_VOWELS
    ensures c in TANWEEN ==> c !in SHORT_VOWELS
  {
    TableKeyRanges(c);
  }

  /** The short-vowel values, which the epenthesis test reads through `SHORT_VOWELS.values()`. */
  lemma ShortVowelValues(p: string)
    ensures p in SHORT_VOWELS.Values <==> p == "a" || p == "u" || p == "I"
  {
    assert SHORT_VOWELS['\U{064E}'] == "a" && SHORT_VOWELS['\U{064F}'] == "u" && SHORT_VOWELS['\U{0650}'] == "I";
  }

  /** The lengthening mark and the article's hamza token are no consonant value. */
  lemma NotConsonantValues()
    ensures ":" !in CONSONANTS.Values && "?a" !in CONSONANTS.Values
  {
  }

  /** No reading of a combined-hamza letter, diacritic, tanween, damma or kasra is a
      consonant value. */
  lemma MarkReadingsAreNoConsonantValues(p: string)
    requires p in COMBINED_HAMZA.Values || p in DIACRITICS.Values || p in TANWEEN.Values ||
      p == "u" || p == "I"
    ensures p !in CONSONANTS.Values
  {
  }

  /** The fatha's reading `a` is a consonant value too: it is ta marbuta's. */
  lemma FathaReadingIsConsonantValue()
    ensures "a" in CONSONANTS.Values && SHORT_VOWELS['\U{064E}'] == "a"
  {
    assert CONSONANTS['\U{0629}'] == "a";
  }
}
