/** The per-word pipeline: the article test, then the five passes in their fixed order. */
module Transcriber {
  import opened Tables
  import opened LiteralMapper
  import opened EndingNormalizer
  import opened ArticleAssimilator
  import opened GlideDisambiguator
  import opened EpenthesisInserter

  /** The pass whose slot access is out of range. */
  datatype Pass = InProcessEndings | InProcessAl | InAddShortVowels

  /** A finished transcription, one phoneme string per slot, or the IndexError that stops
      the word. */
  datatype Outcome = Transcribed(slots: seq<string>) | IndexError(pass: Pass)

  /** `characters[0:2] == AL`: a Python slice stops at the end of a shorter list. */
  predicate HasArticle(chars: seq<char>) {
    chars[..if |chars| < 2 then |chars| else 2] == AL
  }

  /** A word has the article exactly when it has at least two letters, alif then lam. */
  lemma HasArticleExactly(chars: seq<char>)
    ensures HasArticle(chars) <==> |chars| >= 2 && chars[0] == '\U{0627}' && chars[1] == '\U{0644}'
  {
    if |chars| >= 2 && chars[0] == '\U{0627}' && chars[1] == '\U{0644}' {
      assert chars[..2] == AL;
    }
  }

  /** The slots after the first two passes, which every word goes through. */
  function EndedSlots(chars: seq<char>): (r: seq<string>)
    requires |chars| >= 1
    ensures |r| == |chars|
  {
    Endings(chars, LiteralSlots(chars))
  }

  /** Passes three to five on the slots left by the first two: the article pass when the
      word has the article, the glide pass, then epenthesis, with the IndexError of
      `process_al` on fewer than three slots and that of `add_short_vowels`. */
  function Resolve(t: seq<string>, containsAl: bool): Outcome
    requires |t| >= 1
  {
    if containsAl && |t| < 3 then IndexError(InProcessAl)
    else
      var u := if containsAl then Article(t) else t;
      var g := Glides(u, Start(containsAl));
      if EpenthesisFaults(g, Start(containsAl)) then IndexError(InAddShortVowels)
      else Transcribed(Epenthesis(g, Start(containsAl)))
  }

  /** What the pipeline produces for one word, as `main` runs the passes. */
  function Transcription(chars: seq<char>): Outcome {
    if |chars| == 0 then IndexError(InProcessEndings)
    else Resolve(EndedSlots(chars), HasArticle(chars))
  }

  /** The transcription line without its tab and newline: the slots written one after the
      other with no separator. */
  function Joined(slots: seq<string>): string {
    if slots == [] then "" else slots[0] + Joined(slots[1..])
  }

  /** Writing two runs of slots writes the one after the other. */
  lemma {:induction false} JoinedAppend(a: seq<string>, b: seq<string>)
    ensures Joined(a + b) == Joined(a) + Joined(b)
  {
    if a != [] {
      assert (a + b)[0] == a[0] && (a + b)[1..] == a[1..] + b;
      JoinedAppend(a[1..], b);
    } else {
      assert a + b == b;
    }
  }

  /** An emptied slot, such as a long vowel cleared by a tanween ending, contributes nothing
      to the written transcription. */
  lemma EmptySlotWritesNothing(slots: seq<string>, i: nat)
    requires i < |slots| && slots[i] == ""
    ensures Joined(slots) == Joined(slots[..i]) + Joined(slots[i + 1..])
  {
    var rest := [slots[i]] + slots[i + 1..];
    assert slots == slots[..i] + rest;
    JoinedAppend(slots[..i], rest);
    assert Joined(rest) == Joined(slots[i + 1..]) by {
      assert rest[0] == "" && rest[1..] == slots[i + 1..];
    }
  }

  /** The faults of the second and third passes: an empty line fails in `process_endings`,
      the bare article in `process_al`, and no other word fails in those two passes.  Short
      words fault in `add_short_vowels` too (`LoneLetterFaults`, `ThreeLetterArticleFaults`). */
  lemma ShortWordFaults(chars: seq<char>)
    ensures Transcription(chars) == IndexError(InProcessEndings) <==> |chars| == 0
    ensures Transcription(chars) == IndexError(InProcessAl) <==> chars == AL
    ensures Transcription([]) == IndexError(InProcessEndings)
    ensures Transcription(AL) == IndexError(InProcessAl)
  {
    HasArticleExactly(chars);
    HasArticleExactly(AL);
    if chars == AL {
      assert HasArticle(chars);
    }
    if HasArticle(chars) && |chars| == 2 {
      assert chars == AL;
    }
  }

  /** Passes three to five keep the slot count, except that epenthesis may add one slot. */
  lemma ResolveLength(t: seq<string>, containsAl: bool)
    requires |t| >= 1 && Resolve(t, containsAl).Transcribed?
    ensures |Resolve(t, containsAl).slots| in {|t|, |t| + 1}
  {
    var u := if containsAl then Article(t) else t;
    EpenthesisEffect(Glides(u, Start(containsAl)), Start(containsAl));
  }

  /** The whole pipeline keeps one slot per character, except that epenthesis may add one. */
  lemma TranscriptionLength(chars: seq<char>)
    requires Transcription(chars).Transcribed?
    ensures |Transcription(chars).slots| in {|chars|, |chars| + 1}
  {
    ResolveLength(EndedSlots(chars), HasArticle(chars));
  }

  /** When slot 2 of an article word is a sun letter, the article doubles that consonant and
      no epenthetic vowel follows: slot 2 is then the length mark, which is neither a long
      vowel for the glide pass nor a consonant value for epenthesis. */
  lemma ResolveSunLetter(t: seq<string>)
    requires |t| >= 3 && t[2] in SUN_LETTERS
    ensures Resolve(t, true).Transcribed?
    ensures |Resolve(t, true).slots| == |t|
    ensures Resolve(t, true).slots[..3] == ["?a", t[2], ":"]
  {
    ArticleEffect(t);
    var u := Article(t);
    GlidesFrame(u, 2);
    GlidesSlot(u, 2, 2);
    NotConsonantValues();
    var g := Glides(u, 2);
    assert g[..3] == u[..3];
  }

  /** In an article word whose third slot is a sun letter no epenthetic vowel is inserted,
      and the word starts `?a`, the doubled consonant, `:`. */
  lemma SunLetterArticleHasNoEpenthesis(chars: seq<char>)
    requires HasArticle(chars) && |chars| >= 3
    requires EndedSlots(chars)[2] in SUN_LETTERS
    ensures Transcription(chars).Transcribed?
    ensures |Transcription(chars).slots| == |chars|
    ensures Transcription(chars).slots[..3] == ["?a", EndedSlots(chars)[2], ":"]
  {
    ResolveSunLetter(EndedSlots(chars));
  }

  /** In an article word of three or more letters the lam's slot still reads `l` after the
      ending rules: the lam is neither a combined-hamza letter nor a long vowel. */
  lemma ArticleLamIsL(chars: seq<char>)
    requires HasArticle(chars) && |chars| >= 3
    ensures EndedSlots(chars)[1] == "l"
  {
    HasArticleExactly(chars);
    var l := LiteralSlots(chars);
    LiteralSlotsPerCharacter(chars, 1);
    LookupPrecedence(chars[1]);
    EndingsTouchOnlyPenultimate(chars, l);
    TableKeysOverlapOnlyInGlides(chars[1]);
  }

  /** Epenthesis creates no pair of adjacent long vowels: the inserted `a` separates the
      initial consonant from the next slot, and a long vowel pushed right of it is either
      `A:` (which blocks the insertion) or rewritten to its glide consonant. */
  lemma EpenthesisKeepsLongVowelsApart(g: seq<string>, start: nat)
    requires start < |g| && !EpenthesisFaults(g, start)
    requires forall i :: 0 <= i < start ==> !IsLongVowel(g[i])
    requires forall i :: start <= i < |g| - 1 ==> !(IsLongVowel(g[i]) && IsLongVowel(g[i + 1]))
    ensures var r := Epenthesis(g, start);
      forall i :: 0 <= i < |r| - 1 ==> !(IsLongVowel(r[i]) && IsLongVowel(r[i + 1]))
  {
    var r := Epenthesis(g, start);
    EpenthesisEffect(g, start);
    if |r| == |g| + 1 {
      forall i | 0 <= i < |r| - 1 ensures !(IsLongVowel(r[i]) && IsLongVowel(r[i + 1])) {
        if i < start {
          assert r[i] == r[..start + 1][i] == g[i];
        } else if i == start || i == start + 1 {
          assert r[start + 1] == "a";
        } else if i == start + 2 {
          assert !IsLongVowel(r[start + 2]);
        } else {
          assert r[i] == r[start + 3..][i - start - 3] == g[i - 1];
          assert r[i + 1] == r[start + 3..][i - start - 2] == g[i];
        }
      }
    }
  }

  /** The article pass leaves no long vowel in the article's two slots when the lam's slot
      holds none: slot 0 is `?a`, slot 1 the old slot 1 or a sun letter. */
  lemma ArticleSlotsAreNoLongVowels(t: seq<string>)
    requires |t| >= 3 && !IsLongVowel(t[1])
    ensures !IsLongVowel(Article(t)[0]) && !IsLongVowel(Article(t)[1])
  {
    ArticleEffect(t);
  }

  /** The glide pass and epenthesis keep long vowels apart on any slots whose prefix before
      `start` holds none. */
  lemma GlidesThenEpenthesisKeepLongVowelsApart(u: seq<string>, start: nat)
    requires start < |u| && !EpenthesisFaults(Glides(u, start), start)
    requires forall i :: 0 <= i < start ==> !IsLongVowel(u[i])
    ensures var r := Epenthesis(Glides(u, start), start);
      && (forall i :: 0 <= i < |r| - 1 ==> !(IsLongVowel(r[i]) && IsLongVowel(r[i + 1])))
      && !IsLongVowel(r[start])
  {
    var g := Glides(u, start);
    GlidesFrame(u, start);
    forall i | 0 <= i < start ensures !IsLongVowel(g[i]) {
      assert g[i] == g[..start][i] == u[i];
    }
    forall i | start <= i < |g| - 1 ensures !(IsLongVowel(g[i]) && IsLongVowel(g[i + 1])) {
      NoAdjacentLongVowels(u, start, i);
    }
    EpenthesisKeepsLongVowelsApart(g, start);
    EpenthesisEffect(g, start);
    var r := Epenthesis(g, start);
    assert r[start] == g[start] by {
      if |r| == |g| + 1 {
        assert r[start] == r[..start + 1][start];
      }
    }
  }

  /** After passes three to five no two adjacent slots hold long vowels, and the first slot
      of the word proper holds none, provided the article's `l` slot is no long vowel. */
  lemma ResolveKeepsLongVowelsApart(t: seq<string>, containsAl: bool)
    requires |t| >= 1 && Resolve(t, containsAl).Transcribed?
    requires containsAl ==> !IsLongVowel(t[1])
    ensures var r := Resolve(t, containsAl).slots;
      forall i :: 0 <= i < |r| - 1 ==> !(IsLongVowel(r[i]) && IsLongVowel(r[i + 1]))
    ensures !IsLongVowel(Resolve(t, containsAl).slots[Start(containsAl)])
  {
    if containsAl {
      ArticleSlotsAreNoLongVowels(t);
      var u := Article(t);
      forall i | 0 <= i < 2 ensures !IsLongVowel(u[i]) {
        assert i == 0 || i == 1;
      }
      GlidesThenEpenthesisKeepLongVowelsApart(u, 2);
    } else {
      GlidesThenEpenthesisKeepLongVowelsApart(t, 0);
    }
  }

  /** No finished transcription holds two adjacent long-vowel tokens, and none holds a long
      vowel in the first slot of the word proper (slot 2 after the article, else slot 0). */
  lemma TranscriptionKeepsLongVowelsApart(chars: seq<char>)
    requires Transcription(chars).Transcribed?
    ensures var r := Transcription(chars).slots;
      forall i :: 0 <= i < |r| - 1 ==> !(IsLongVowel(r[i]) && IsLongVowel(r[i + 1]))
    ensures !IsLongVowel(Transcription(chars).slots[Start(HasArticle(chars))])
  {
    if HasArticle(chars) {
      ArticleLamIsL(chars);
    }
    ResolveKeepsLongVowelsApart(EndedSlots(chars), HasArticle(chars));
  }

  /** The slot a one-letter word holds after the glide pass: its first-pass entry (empty
      when it has none), read as a consonant when that entry is a long vowel. */
  function LoneReading(c: char): string {
    var p := if Lookup(c).Some? then Lookup(c).value else "";
    if p in LONG_TO_SHORT then LONG_TO_SHORT[p] else p
  }

  /** A one-letter word has no slot after it for the epenthesis test to read, so it faults
      in `add_short_vowels` when its one slot is a consonant value, and is otherwise that
      slot alone. */
  lemma LoneLetterResult(c: char)
    ensures Transcription([c]) ==
      if LoneReading(c) in CONSONANTS.Values then IndexError(InAddShortVowels)
      else Transcribed([LoneReading(c)])
  {
    HasArticleExactly([c]);
    LiteralSlotsPerCharacter([c], 0);
    EndingsTouchOnlyPenultimate([c], LiteralSlots([c]));
    var t := EndedSlots([c]);
    assert t == LiteralSlots([c]);
    GlidesSlot(t, 0, 0);
    assert Glides(t, 0) == [LoneReading(c)];
  }

  /** The one-letter readings that are consonant values: those of the CONSONANTS letters
      (ya and waw too, which the glide pass turns back into `y` and `w`) and the fatha's
      `a`, which is also the value of ta marbuta. */
  lemma LoneReadingIsConsonant(c: char)
    ensures LoneReading(c) in CONSONANTS.Values <==> c in CONSONANTS || c == '\U{064E}'
  {
    LookupPrecedence(c);
    if c == '\U{064E}' {
      FathaReadingIsConsonantValue();
      assert LoneReading(c) == "a";
    } else if c in CONSONANTS {
      assert LoneReading(c) == CONSONANTS[c];
    } else {
      LoneReadingOfMark(c);
    }
  }

  /** A letter outside CONSONANTS, other than the fatha, reads as no consonant value. */
  lemma LoneReadingOfMark(c: char)
    requires c !in CONSONANTS && c != '\U{064E}'
    ensures LoneReading(c) !in CONSONANTS.Values
  {
    if c in LONG_VOWELS {
      LoneReadingOfAlif(c);
    } else if c in COMBINED_HAMZA {
      LoneReadingOfHamza(c);
    } else if c in DIACRITICS {
      LoneReadingOfDiacritic(c);
    } else if c in TANWEEN {
      LoneReadingOfTanween(c);
    } else if c in SHORT_VOWELS {
      LoneReadingOfVowelMark(c);
    } else {
      LoneReadingOfOther(c);
    }
  }

  /** Alif and alif maqsura read as `A:`, which the glide pass turns into `?a`. */
  lemma LoneReadingOfAlif(c: char)
    requires c !in CONSONANTS && c in LONG_VOWELS
    ensures LoneReading(c) !in CONSONANTS.Values
  {
    assert LoneReading(c) == "?a";
    NotConsonantValues();
  }

  /** Damma and kasra read as `u` and `I`, no consonant value. */
  lemma LoneReadingOfVowelMark(c: char)
    requires c !in CONSONANTS && c !in LONG_VOWELS && c !in COMBINED_HAMZA && c !in DIACRITICS
    requires c !in TANWEEN && c in SHORT_VOWELS && c != '\U{064E}'
    ensures LoneReading(c) !in CONSONANTS.Values
  {
    assert Lookup(c) == Some(SHORT_VOWELS[c]);
    assert SHORT_VOWELS[c] == "u" || SHORT_VOWELS[c] == "I";
    MarkReadingsAreNoConsonantValues(SHORT_VOWELS[c]);
  }

  /** A letter in no table leaves its slot empty, and `` is no consonant value. */
  lemma LoneReadingOfOther(c: char)
    requires c !in CONSONANTS && c !in LONG_VOWELS && c !in COMBINED_HAMZA && c !in DIACRITICS
    requires c !in TANWEEN && c !in SHORT_VOWELS
    ensures LoneReading(c) !in CONSONANTS.Values
  {
    assert Lookup(c) == None && LoneReading(c) == DIACRITICS['\U{0652}'];
    MarkReadingsAreNoConsonantValues(DIACRITICS['\U{0652}']);
  }

  /** A combined-hamza letter reads as its hamza token, no consonant value. */
  lemma LoneReadingOfHamza(c: char)
    requires c !in CONSONANTS && c !in LONG_VOWELS && c in COMBINED_HAMZA
    ensures LoneReading(c) !in CONSONANTS.Values
  {
    assert Lookup(c) == Some(COMBINED_HAMZA[c]);
    assert COMBINED_HAMZA[c] in {"?a", "?u", "?I"};
    MarkReadingsAreNoConsonantValues(COMBINED_HAMZA[c]);
  }

  /** Shadda and sukun read as `:` and ``, no consonant value. */
  lemma LoneReadingOfDiacritic(c: char)
    requires c !in CONSONANTS && c !in LONG_VOWELS && c !in COMBINED_HAMZA && c in DIACRITICS
    ensures LoneReading(c) !in CONSONANTS.Values
  {
    assert Lookup(c) == Some(DIACRITICS[c]);
    assert DIACRITICS[c] in {":", ""};
    MarkReadingsAreNoConsonantValues(DIACRITICS[c]);
  }

  /** A tanween mark reads as its case ending, no consonant value. */
  lemma LoneReadingOfTanween(c: char)
    requires c !in CONSONANTS && c !in LONG_VOWELS && c !in COMBINED_HAMZA && c !in DIACRITICS
    requires c in TANWEEN
    ensures LoneReading(c) !in CONSONANTS.Values
  {
    assert Lookup(c) == Some(TANWEEN[c]);
    assert TANWEEN[c] in {"an", "un", "in"};
    MarkReadingsAreNoConsonantValues(TANWEEN[c]);
  }

  /** A one-letter word faults only in `add_short_vowels`, and does so exactly when the
      letter is a CONSONANTS letter or the fatha. */
  lemma LoneLetterFaults(c: char)
    ensures Transcription([c]).IndexError? ==> Transcription([c]).pass == InAddShortVowels
    ensures Transcription([c]) == IndexError(InAddShortVowels) <==>
      c in CONSONANTS || c == '\U{064E}'
  {
    LoneLetterResult(c);
    LoneReadingIsConsonant(c);
  }

  /** A three-letter article word doubles a sun letter in its third slot and otherwise
      faults in `add_short_vowels`: the moon letter's consonant value at slot 2 has no slot
      after it.  This holds for every consonant letter, the glides included. */
  lemma ThreeLetterArticleFaults(c: char)
    requires c in CONSONANTS
    ensures Transcription(AL + [c]) == IndexError(InAddShortVowels) <==> CONSONANTS[c] !in SUN_LETTERS
    ensures Transcription(AL + [c]).Transcribed? <==> CONSONANTS[c] in SUN_LETTERS
  {
    var w := AL + [c];
    ArticleWordSlots(c);
    var t := EndedSlots(w);
    ResolveThreeSlotArticle(t);
    LoneReadingIsConsonant(c);
    assert LoneReading(c) == if t[2] in LONG_TO_SHORT then LONG_TO_SHORT[t[2]] else t[2];
    if c == '\U{064A}' || c == '\U{0648}' {
      GlidesReadAsLongVowels();
    } else {
      TableKeysOverlapOnlyInGlides(c);
      assert t[2] == CONSONANTS[c];
    }
  }

  /** Alif, lam and a consonant letter: an article word whose third slot holds the
      letter's first-pass entry. */
  lemma ArticleWordSlots(c: char)
    requires c in CONSONANTS
    ensures HasArticle(AL + [c]) && |EndedSlots(AL + [c])| == 3
    ensures EndedSlots(AL + [c])[2] == Lookup(c).value
    ensures Transcription(AL + [c]) == Resolve(EndedSlots(AL + [c]), true)
  {
    var w := AL + [c];
    HasArticleExactly(w);
    LiteralSlotsPerCharacter(w, 2);
    LookupPrecedence(c);
    EndingsTouchOnlyPenultimate(w, LiteralSlots(w));
  }

  /** Passes three to five on the three slots of an article word: a sun letter in slot 2
      is doubled and the word is finished; otherwise slot 2, read as a consonant when it is
      a long vowel, faults in `add_short_vowels` exactly when it is a consonant value. */
  lemma ResolveThreeSlotArticle(t: seq<string>)
    requires |t| == 3
    ensures Resolve(t, true) == IndexError(InAddShortVowels) <==>
      t[2] !in SUN_LETTERS &&
      (if t[2] in LONG_TO_SHORT then LONG_TO_SHORT[t[2]] else t[2]) in CONSONANTS.Values
    ensures Resolve(t, true).Transcribed? <==> !(Resolve(t, true) == IndexError(InAddShortVowels))
  {
    ArticleEffect(t);
    if t[2] in SUN_LETTERS {
      ResolveSunLetter(t);
    } else {
      GlidesSlot(Article(t), 2, 2);
    }
  }

  /** Kaf then alif: `k`, `A:`; the alif blocks epenthesis, and the line reads `kA:`. */
  lemma KafAlif()
    ensures Transcription(['\U{0643}', '\U{0627}']) == Transcribed(["k", "A:"])
    ensures Joined(["k", "A:"]) == "kA:"
  {
    var w := ['\U{0643}', '\U{0627}'];
    HasArticleExactly(w);
    LiteralSlotsPerCharacter(w, 0);
    LiteralSlotsPerCharacter(w, 1);
    LookupPrecedence(w[0]);
    LookupPrecedence(w[1]);
    EndingsTouchOnlyPenultimate(w, LiteralSlots(w));
    assert EndedSlots(w) == ["k", "A:"];
    GlidesSlot(["k", "A:"], 0, 0);
    GlidesSlot(["k", "A:"], 0, 1);
    assert Glides(["k", "A:"], 0) == ["k", "A:"];
  }

  /** Alif, lam, ta: the sun letter `t` is doubled, giving `?a`, `t`, `:`. */
  lemma ArticleBeforeTa()
    ensures Transcription(['\U{0627}', '\U{0644}', '\U{062A}']) == Transcribed(["?a", "t", ":"])
  {
    var w := ['\U{0627}', '\U{0644}', '\U{062A}'];
    HasArticleExactly(w);
    LiteralSlotsPerCharacter(w, 2);
    LookupPrecedence(w[2]);
    EndingsTouchOnlyPenultimate(w, LiteralSlots(w));
    ArticleLamIsL(w);
    assert EndedSlots(w)[2] == "t";
    ResolveSunLetter(EndedSlots(w));
    assert Transcription(w).slots == Transcription(w).slots[..3];
  }

  /** Kaf, alif, fathatan: the tanween clears the alif's slot, epenthesis then inserts `a`
      after the kaf, and the cleared slot writes nothing: the line reads `kaan`. */
  lemma TanweenOnAlif()
    ensures Transcription(['\U{0643}', '\U{0627}', '\U{064B}']) == Transcribed(["k", "a", "", "an"])
    ensures Joined(["k", "a", "", "an"]) == "kaan"
  {
    var w := ['\U{0643}', '\U{0627}', '\U{064B}'];
    HasArticleExactly(w);
    assert !HasArticle(w);
    TanweenClearsAlif();
    EpenthesisAfterKaf();
    assert Transcription(w) == Resolve(["k", "", "an"], false);
    KaanWritten();
  }

  /** The slots `k`, `a`, ``, `an` are written `kaan`, the empty slot contributing nothing. */
  lemma KaanWritten()
    ensures Joined(["k", "a", "", "an"]) == "kaan"
  {
    var r := ["k", "a", "", "an"];
    EmptySlotWritesNothing(r, 2);
    assert r[..2] == ["k", "a"] && r[3..] == ["an"];
    assert Joined(["an"]) == "an";
    assert Joined(["a"]) == "a";
  }

  /** The first two passes on kaf, alif, fathatan. */
  lemma TanweenClearsAlif()
    ensures EndedSlots(['\U{0643}', '\U{0627}', '\U{064B}']) == ["k", "", "an"]
  {
    var w := ['\U{0643}', '\U{0627}', '\U{064B}'];
    LiteralSlotsPerCharacter(w, 0);
    LiteralSlotsPerCharacter(w, 1);
    LiteralSlotsPerCharacter(w, 2);
    LookupPrecedence(w[0]);
    LookupPrecedence(w[1]);
    LookupPrecedence(w[2]);
    EndingsTouchOnlyPenultimate(w, LiteralSlots(w));
  }

  /** Passes three to five on `k`, ``, `an`: epenthesis fires after the kaf. */
  lemma EpenthesisAfterKaf()
    ensures Resolve(["k", "", "an"], false) == Transcribed(["k", "a", "", "an"])
  {
    var t := ["k", "", "an"];
    GlidesSlot(t, 0, 0);
    GlidesSlot(t, 0, 1);
    GlidesSlot(t, 0, 2);
    assert Glides(t, 0) == t;
    ShortVowelValues("");
    assert "k" in CONSONANTS.Values by {
      assert CONSONANTS['\U{0643}'] == "k";
    }
    assert Epenthesis(t, 0) == ["k", "a", "", "an"];
  }

  /** `main` for one line: the pipeline on an array of empty slots, the fault of a pass
      returned as `IndexError`, the written slots as the result. */
  method Transcribe(chars: seq<char>) returns (outcome: Outcome)
    ensures outcome == Transcription(chars)
  {
    var transcrip := new string[|chars|](_ => "");
    assert transcrip[..] == EmptySlots(|chars|);
    var containsAl := chars[..if |chars| < 2 then |chars| else 2] == AL;
    InitialReplacement(chars, transcrip);
    if |chars| == 0 {
      return IndexError(InProcessEndings);
    }
    ProcessEndings(chars, transcrip);
    if containsAl {
      if transcrip.Length < 3 {
        return IndexError(InProcessAl);
      }
      ProcessAl(transcrip);
    }
    ProcessVowels(transcrip, containsAl);
    if EpenthesisFaults(transcrip[..], Start(containsAl)) {
      return IndexError(InAddShortVowels);
    }
    var result := AddShortVowels(transcrip, containsAl);
    outcome := Transcribed(result[..]);
  }
}
