# Arabic to X-SAMPA transcriber: a verified model of the transcription pipeline

This project models the core of `Arabic_X_SAMPA_Transcriber.py`. That core turns one Arabic
word, given as a sequence of code points, into a list of X-SAMPA phoneme strings with one
slot per character. It first tests for the definite article (`characters[0:2] == AL`),
then runs five rewrite passes, in a fixed order, over one mutable list:

1. `initial_replacement`: a per-character table lookup, in which the long-vowel table
   overrides every other table;
2. `process_endings`: alif maqsura after a hamza letter, and tanween on a long vowel;
3. `process_al`: sun-letter assimilation, run only for article words;
4. `process_vowels`: long vowels read as consonants at the word start and before another
   long vowel;
5. `add_short_vowels`: one epenthetic `a` after a bare initial consonant.

Module `Tables` holds the source's tables under the same names and with the same values.
The dictionaries are `const` maps; `AL` and `SUN_LETTERS` are `seq` constants, as the
Python lists are; `ALIF_MAQSURA` names the letter U+0649, which the source writes inline
in `process_endings`. Each pass is its own module:

| module | pass |
|---|---|
| `LiteralMapper` | 1 |
| `EndingNormalizer` | 2 |
| `ArticleAssimilator` | 3 |
| `GlideDisambiguator` | 4 |
| `EpenthesisInserter` | 5 |
| `Transcriber` | the article test and the composition |

The source changes the slot list in place, and so does the model:

- Each pass is a method over an `array<string>`. Its `ensures` ties the new array to a
  specification function of the old contents (`Replaced`, `Endings`, `Article`, `Glides`,
  `Epenthesis`).
- `add_short_vowels` grows the list with `list.insert`. In the model it returns either the
  same array or a fresh array one slot longer, filled by a shifting loop (`InsertSlot`).
- Lemmas about the specification functions state what the source promises.

A Python `IndexError` becomes a `requires` on the method that would raise it. The pipeline
specification `Transcription` and the method `Transcribe` report the same fault as
`IndexError(pass)` and name the pass that faults.

Two details of the code are modelled explicitly:

- `process_endings` reads index `last_idx - 1`. For a one-letter word that index is `-1`,
  which Python reads as the last slot. `PyIndex` models this, and the model proves that
  such a word is left unchanged.
- `process_vowels` is a single left-to-right loop that reads the slots as they stand.
  `GlideLoop` is that loop, iteration by iteration. `GlideLoopReadsOriginal` then proves
  that every decision depends only on the slots as they were before the loop.

## Model

| member | source | states |
|---|---|---|
| Tables.LongToShortLeavesNoLongVowel | Arabic_X_SAMPA_Transcriber.py:40 | Every consonant reading in LONG_TO_SHORT (`?a`, `w`, `y`) is not itself a long-vowel token, so rewriting a slot through the table removes its long vowel. |
| Tables.TableKeyRanges | Arabic_X_SAMPA_Transcriber.py:8-27 | The code-point range of each first-pass table's keys, and the four long-vowel letters. |
| Tables.TableKeysOverlapOnlyInGlides | Arabic_X_SAMPA_Transcriber.py:8-27 | Only U+064A and U+0648 are keys of two tables (CONSONANTS and LONG_VOWELS). Every other pair of tables has disjoint keys. |
| Tables.ShortVowelValues | Arabic_X_SAMPA_Transcriber.py:15 | `SHORT_VOWELS.values()` is exactly `a`, `u`, `I`. |
| Tables.NotConsonantValues | Arabic_X_SAMPA_Transcriber.py:8-12 | The length mark `:` and the token `?a` are not values of CONSONANTS. |
| Tables.MarkReadingsAreNoConsonantValues | Arabic_X_SAMPA_Transcriber.py:8-27 | No COMBINED_HAMZA, DIACRITICS or TANWEEN value, and neither `u` nor `I`, is a CONSONANTS value. |
| Tables.FathaReadingIsConsonantValue | Arabic_X_SAMPA_Transcriber.py:8-15 | The fatha's reading `a` is also a CONSONANTS value, that of ta marbuta. |
| Tables.IsLongVowel | Arabic_X_SAMPA_Transcriber.py:142-150 | The `in LONG_TO_SHORT` test the glide pass and epenthesis apply to a slot: the slot is one of the long-vowel tokens `A:`, `u:`, `i:`. |
| LiteralMapper.Lookup | Arabic_X_SAMPA_Transcriber.py:95-106 | The entry written for one character: the first of CONSONANTS, COMBINED_HAMZA, DIACRITICS, TANWEEN and SHORT_VOWELS that holds it, overwritten by its LONG_VOWELS entry when it has one; none when no table holds it. |
| LiteralMapper.Replaced | Arabic_X_SAMPA_Transcriber.py:94-106 | The list after the loop: each slot below the character count takes its character's entry when there is one, every other slot keeps its value. |
| LiteralMapper.LiteralSlots | Arabic_X_SAMPA_Transcriber.py:60-69 | The first pass run on the list of empty slots that `main` builds; it has one slot per character. |
| LiteralMapper.EmptySlots | Arabic_X_SAMPA_Transcriber.py:60 | The initial list has one empty string per character. |
| LiteralMapper.LiteralSlotsPerCharacter | Arabic_X_SAMPA_Transcriber.py:60-69 | After the first pass there is one slot per character. Each slot holds its own character's table entry, and a character in no table leaves its slot empty. |
| LiteralMapper.LookupPrecedence | Arabic_X_SAMPA_Transcriber.py:94-106 | A long-vowel letter always gets its LONG_VOWELS entry. Any other letter gets the entry of the one table that holds it, whatever the order of the elif chain. A letter has no entry exactly when no table holds it. |
| LiteralMapper.GlidesReadAsLongVowels | Arabic_X_SAMPA_Transcriber.py:12-18 | CONSONANTS reads ya and waw as `y` and `w`, yet the first pass gives them the long-vowel readings `i:` and `u:`. |
| LiteralMapper.InitialReplacement | Arabic_X_SAMPA_Transcriber.py:88-108 | The loop overwrites each slot below the character count with that character's entry, when it has one. Every other slot keeps its old value. |
| EndingNormalizer.PyIndex | Arabic_X_SAMPA_Transcriber.py:119 | Python indexing: every index from `-n` to `n-1` names the slot congruent to it modulo the length `n`, so `-1` is the last slot. |
| EndingNormalizer.PenultimateIndex | Arabic_X_SAMPA_Transcriber.py:119-125 | The slot `last_idx - 1` names, always inside the list (for one letter, the last slot). |
| EndingNormalizer.HamzaBeforeMaqsura | Arabic_X_SAMPA_Transcriber.py:119 | The condition of the alif-maqsura rule: the last letter is U+0649 and the letter at `last_idx - 1` is a combined-hamza letter. |
| EndingNormalizer.TanweenOnLongVowel | Arabic_X_SAMPA_Transcriber.py:123-124 | The condition of the tanween rule: the last letter is a tanween mark and the letter at `last_idx - 1` is a long-vowel letter. |
| EndingNormalizer.Endings | Arabic_X_SAMPA_Transcriber.py:111-127 | `process_endings` keeps the length of the slot list. |
| EndingNormalizer.EndingsTouchOnlyPenultimate | Arabic_X_SAMPA_Transcriber.py:116-125 | Only the second-to-last slot can change: to `?` after a hamza letter before final alif maqsura, to `` under tanween after a long-vowel letter, and not otherwise. The two rules never both apply, and a one-letter word is left unchanged. |
| EndingNormalizer.ProcessEndings | Arabic_X_SAMPA_Transcriber.py:111-127 | The in-place pass on a non-empty word yields `Endings` of the old slots. |
| ArticleAssimilator.Article | Arabic_X_SAMPA_Transcriber.py:155-166 | `process_al` keeps the length of the slot list. |
| ArticleAssimilator.ArticleEffect | Arabic_X_SAMPA_Transcriber.py:161-164 | Slot 0 becomes `?a`. If old slot 2 is a sun letter, slot 1 becomes that letter and slot 2 becomes `:`; otherwise slots 1 and 2 are unchanged. Slots from 3 on, and the length, never change. |
| ArticleAssimilator.ProcessAl | Arabic_X_SAMPA_Transcriber.py:155-166 | The in-place pass on at least three slots yields `Article` of the old slots. |
| GlideDisambiguator.Start | Arabic_X_SAMPA_Transcriber.py:136-139 | The first slot of the word proper: 2 for an article word, whose two article slots are skipped, and 0 otherwise (the same choice as at lines 180-183). |
| GlideDisambiguator.InitialRule | Arabic_X_SAMPA_Transcriber.py:142-143 | A long vowel at `start` takes its consonant reading; nothing else changes. |
| GlideDisambiguator.GlideStep | Arabic_X_SAMPA_Transcriber.py:147-151 | One loop iteration at `i`: slot `i` takes its consonant reading when it and slot `i+1`, as they stand, are both long vowels. |
| GlideDisambiguator.GlideLoop | Arabic_X_SAMPA_Transcriber.py:146-151 | The loop iterations, run in order, keep the length. |
| GlideDisambiguator.Glides | Arabic_X_SAMPA_Transcriber.py:130-153 | `process_vowels` keeps the length. |
| GlideDisambiguator.GlideLoopReadsOriginal | Arabic_X_SAMPA_Transcriber.py:146-151 | After the loop, slot k is the consonant reading of its old value exactly when k is in the loop range and the old slots k and k+1 are both long vowels. Otherwise slot k is unchanged. |
| GlideDisambiguator.GlidesSlot | Arabic_X_SAMPA_Transcriber.py:136-151 | Every slot after `process_vowels`, stated on the input alone: the word-initial rule at `start`, the adjacency rule on interior slots, and no change anywhere else. |
| GlideDisambiguator.GlidesFrame | Arabic_X_SAMPA_Transcriber.py:136-151 | The length and the slots before `start` are unchanged. The last slot (unless it is `start`) is unchanged. The slot at `start` is not a long vowel. |
| GlideDisambiguator.NoAdjacentLongVowels | Arabic_X_SAMPA_Transcriber.py:142-151 | After the pass, no two adjacent slots at or after `start` are both long-vowel tokens. |
| GlideDisambiguator.ThreeLongVowelRun | Arabic_X_SAMPA_Transcriber.py:146-151 | A run of exactly three long vowels ends as consonant, consonant, vowel. |
| GlideDisambiguator.ProcessVowels | Arabic_X_SAMPA_Transcriber.py:130-153 | The in-place pass yields `Glides` of the old slots. |
| EpenthesisInserter.Insert | Arabic_X_SAMPA_Transcriber.py:188 | `list.insert` puts the new element at the index and shifts the tail one place right. |
| EpenthesisInserter.EpenthesisFaults | Arabic_X_SAMPA_Transcriber.py:185-186 | The IndexError: slot `start` is a CONSONANTS value and there is no slot after it. |
| EpenthesisInserter.NeedsVowel | Arabic_X_SAMPA_Transcriber.py:185-187 | The insertion condition: slot `start` is a CONSONANTS value and the next slot is no SHORT_VOWELS value, not `a` and not `A:`. |
| EpenthesisInserter.Epenthesis | Arabic_X_SAMPA_Transcriber.py:180-193 | The list after `add_short_vowels`: under the insertion condition an `a` is inserted at `start+1` and a long vowel pushed to `start+2` takes its consonant reading; otherwise the list is unchanged. |
| EpenthesisInserter.EpenthesisEffect | Arabic_X_SAMPA_Transcriber.py:185-191 | Either the list is unchanged, or one `a` is inserted at `start+1`. Insertion happens exactly when slot `start` is a CONSONANTS value and the next slot is none of `a`, `u`, `I`, `A:`. The shifted slot then reads `w` for `u:`, `y` for `i:`, and is otherwise kept. All other slots are only shifted. |
| EpenthesisInserter.InsertSlot | Arabic_X_SAMPA_Transcriber.py:188 | Returns a fresh array holding the old list with the element inserted. |
| EpenthesisInserter.AddShortVowels | Arabic_X_SAMPA_Transcriber.py:168-193 | Unless the pass would fault, it returns the same array or a fresh one, holding `Epenthesis` of the slots. |
| Transcriber.HasArticle | Arabic_X_SAMPA_Transcriber.py:63 | `characters[0:2] == AL`, with the slice cut short on a word of fewer than two letters. |
| Transcriber.Resolve | Arabic_X_SAMPA_Transcriber.py:75-78 | Passes 3 to 5 on the slots left by the first two: the article pass for an article word, the glide pass, then epenthesis, with the IndexError of `process_al` on fewer than three slots and that of `add_short_vowels`. |
| Transcriber.Transcription | Arabic_X_SAMPA_Transcriber.py:59-78 | The whole pipeline for one word, in `main`'s order; an empty line faults in `process_endings`. |
| Transcriber.Joined | Arabic_X_SAMPA_Transcriber.py:82-83 | The slots written one after the other with no separator. |
| Transcriber.HasArticleExactly | Arabic_X_SAMPA_Transcriber.py:63 | The slice test holds exactly for words of at least two letters that start with alif, lam. |
| Transcriber.EndedSlots | Arabic_X_SAMPA_Transcriber.py:60-72 | The first two passes give one slot per character. |
| Transcriber.JoinedAppend | Arabic_X_SAMPA_Transcriber.py:82-83 | Writing two runs of slots writes one after the other. |
| Transcriber.EmptySlotWritesNothing | Arabic_X_SAMPA_Transcriber.py:82-83 | An empty slot contributes nothing to the written line. |
| Transcriber.ShortWordFaults | Arabic_X_SAMPA_Transcriber.py:116-162 | An empty line, and only an empty line, faults in `process_endings`. The bare article word, and only that word, faults in `process_al`. Short words can also fault later, in `add_short_vowels` (see the next rows). |
| Transcriber.ResolveLength | Arabic_X_SAMPA_Transcriber.py:75-78 | Passes 3 to 5 keep the slot count or add exactly one slot. |
| Transcriber.TranscriptionLength | Arabic_X_SAMPA_Transcriber.py:59-78 | A finished transcription has as many slots as the word has characters, or one more. |
| Transcriber.ResolveSunLetter | Arabic_X_SAMPA_Transcriber.py:161-164 | With a sun letter in slot 2, an article word does not fault and gets no epenthesis. It starts `?a`, the doubled letter, `:`. |
| Transcriber.SunLetterArticleHasNoEpenthesis | Arabic_X_SAMPA_Transcriber.py:162-164 | The same for a whole word: its slot count equals its character count, and it starts `?a`, the sun letter, `:`. |
| Transcriber.ArticleLamIsL | Arabic_X_SAMPA_Transcriber.py:116-125 | In an article word of three or more letters, the lam's slot is still `l` after the ending rules. |
| Transcriber.ArticleSlotsAreNoLongVowels | Arabic_X_SAMPA_Transcriber.py:161-164 | After `process_al`, neither of the article's two slots is a long vowel. |
| Transcriber.EpenthesisKeepsLongVowelsApart | Arabic_X_SAMPA_Transcriber.py:185-191 | Epenthesis does not create two adjacent long vowels. |
| Transcriber.GlidesThenEpenthesisKeepLongVowelsApart | Arabic_X_SAMPA_Transcriber.py:77-78 | Passes 4 and 5 together leave no adjacent long vowels and no long vowel at `start`. |
| Transcriber.ResolveKeepsLongVowelsApart | Arabic_X_SAMPA_Transcriber.py:75-78 | The same for passes 3 to 5. |
| Transcriber.TranscriptionKeepsLongVowelsApart | Arabic_X_SAMPA_Transcriber.py:59-78 | No finished transcription has two adjacent long-vowel tokens, or a long vowel in the first slot of the word proper. |
| Transcriber.LoneLetterResult | Arabic_X_SAMPA_Transcriber.py:59-78 | A one-letter word faults in `add_short_vowels` when its one slot after the glide pass is a CONSONANTS value, and otherwise comes out as that slot alone. |
| Transcriber.LoneReading | Arabic_X_SAMPA_Transcriber.py:95-143 | The one slot of a one-letter word after the glide pass: its first-pass entry (empty when it has none), read as a consonant when that entry is a long vowel. |
| Transcriber.LoneReadingIsConsonant | Arabic_X_SAMPA_Transcriber.py:95-106 | That slot is a CONSONANTS value exactly when the letter is a CONSONANTS letter (ya and waw included: `i:` and `u:` become `y` and `w`) or the fatha (whose `a` is ta marbuta's value). |
| Transcriber.LoneReadingOfMark | Arabic_X_SAMPA_Transcriber.py:95-106 | For any other letter (alif, alif maqsura, a hamza letter, a diacritic, a tanween mark, damma, kasra, or a letter in no table) that slot is no CONSONANTS value. |
| Transcriber.LoneLetterFaults | Arabic_X_SAMPA_Transcriber.py:185-186 | A one-letter word faults nowhere but in `add_short_vowels`, and faults there exactly when the letter is a CONSONANTS letter or the fatha. |
| Transcriber.ArticleWordSlots | Arabic_X_SAMPA_Transcriber.py:59-72 | Alif, lam and a consonant letter make an article word of three slots whose third holds the letter's first-pass entry. |
| Transcriber.ResolveThreeSlotArticle | Arabic_X_SAMPA_Transcriber.py:161-188 | On three article slots: a sun letter in slot 2 finishes the word; otherwise the word faults in `add_short_vowels` exactly when slot 2, read as a consonant if it is a long vowel, is a CONSONANTS value. |
| Transcriber.ThreeLetterArticleFaults | Arabic_X_SAMPA_Transcriber.py:162-186 | Alif, lam and a consonant letter faults in `add_short_vowels` exactly when the letter's CONSONANTS value is no sun letter (alif, lam, ba, for one), and is finished otherwise. |
| Transcriber.KafAlif | Arabic_X_SAMPA_Transcriber.py:59-84 | Kaf, alif gives `k`, `A:`, written `kA:`. |
| Transcriber.ArticleBeforeTa | Arabic_X_SAMPA_Transcriber.py:59-78 | Alif, lam, ta gives `?a`, `t`, `:`. |
| Transcriber.TanweenClearsAlif | Arabic_X_SAMPA_Transcriber.py:123-125 | For kaf, alif, fathatan, the tanween clears the alif's slot. |
| Transcriber.EpenthesisAfterKaf | Arabic_X_SAMPA_Transcriber.py:185-188 | On `k`, ``, `an`, an `a` is inserted after the kaf. |
| Transcriber.TanweenOnAlif | Arabic_X_SAMPA_Transcriber.py:59-84 | Kaf, alif, fathatan gives `k`, `a`, ``, `an`, written `kaan`. |
| Transcriber.KaanWritten | Arabic_X_SAMPA_Transcriber.py:82-83 | Those slots are written `kaan`. |
| Transcriber.Transcribe | Arabic_X_SAMPA_Transcriber.py:59-84 | The passes run in place on an array of empty slots, in `main`'s order, and yield exactly `Transcription` of the word, including which pass faults. |

## Left out

- File handling in `main`: opening the files given on the command line, iterating over the
  lines, `strip`, removing the byte-order mark, and writing `word<TAB>…<NEWLINE>`. This is I/O.
  Only the concatenation of the slots is modelled (`Joined`).
- An uncaught `IndexError` ends the whole Python run, so the remaining lines are never
  processed. The model reports the fault for one word and does not model the rest of the run.
- `backup.py`: an earlier draft that is never invoked. Its tables conflict with the live
  ones, and they are not merged here.
- Unicode normalisation: a Dafny `char` stands for one code point, as Python's `list(line)`
  gives.
- Update in place for `add_short_vowels`: the Python list grows in place and keeps its
  identity. The model returns a new, longer array when it inserts.
- EndingNormalizer.ProcessEndings: requires the slot list to be exactly as long as the word,
  as `main` always builds it. With a longer list, Python's index `-1` would name a different
  slot.
- Determinism is not stated as a lemma: every specification here is a function, so it is
  deterministic by construction.
