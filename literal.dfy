/** First pass: per-character table lookup into the slot array. */
module LiteralMapper {
  import opened Tables

  datatype Option<T> = None | Some(value: T)

  /** The table entry `initial_replacement` writes for `c`, if any: the first table of
      consonant, combined hamza, diacritic, tanween and short vowel that holds `c`, then
      overwritten by the long-vowel entry when `c` is a long-vowel letter. */
  function Lookup(c: char): Option<string> {
    var chained :=
      if c in CONSONANTS then Some(CONSONANTS[c])
      else if c in COMBINED_HAMZA then Some(COMBINED_HAMZA[c])
      else if c in DIACRITICS then Some(DIACRITICS[c])
      else if c in TANWEEN then Some(TANWEEN[c])
      else if c in SHORT_VOWELS then Some(SHORT_VOWELS[c])
      else None;
    if c in LONG_VOWELS then Some(LONG_VOWELS[c]) else chained
  }

  /** The slot array after the first pass over `t`: slot `k` below `|chars|` takes the entry
      for `chars[k]` when there is one and keeps its old value otherwise. */
  function Replaced(chars: seq<char>, t: seq<string>): seq<string>
    requires |chars| <= |t|
  {
    seq(|t|, k requires 0 <= k < |t| =>
      if k < |chars| && Lookup(chars[k]).Some? then Lookup(chars[k]).value else t[k])
  }

  /** The slot array the pipeline starts from: one empty slot per character. */
  function EmptySlots(n: nat): (r: seq<string>)
    ensures |r| == n && forall k :: 0 <= k < n ==> r[k] == ""
  {
    seq(n, _ => "")
  }

  /** The literal transcription of a whole word, as the pipeline computes it. */
  function LiteralSlots(chars: seq<char>): (r: seq<string>)
    ensures |r| == |chars|
  {
    Replaced(chars, EmptySlots(|chars|))
  }

  /** Each slot depends only on its own character, and the slot count is the character
      count; a character in no table leaves its slot empty. */
  lemma LiteralSlotsPerCharacter(chars: seq<char>, k: nat)
    requires k < |chars|
    ensures |LiteralSlots(chars)| == |chars|
    ensures Lookup(chars[k]).Some? ==> LiteralSlots(chars)[k] == Lookup(chars[k]).value
    ensures Lookup(chars[k]).None? ==> LiteralSlots(chars)[k] == ""
  {
  }

  /** Table precedence.  Because the five chained tables have disjoint keys, each letter gets
      the entry of the one table that holds it, whatever the order of the chain; the only
      letters the long-vowel override changes are the glides, which appear in CONSONANTS
      too; and a letter in no table has no entry. */
  lemma LookupPrecedence(c: char)
    ensures c in LONG_VOWELS ==> Lookup(c) == Some(LONG_VOWELS[c])
    ensures c in CONSONANTS && c !in LONG_VOWELS ==> Lookup(c) == Some(CONSONANTS[c])
    ensures c in COMBINED_HAMZA ==> Lookup(c) == Some(COMBINED_HAMZA[c])
    ensures c in DIACRITICS ==> Lookup(c) == Some(DIACRITICS[c])
    ensures c in TANWEEN ==> Lookup(c) == Some(TANWEEN[c])
    ensures c in SHORT_VOWELS ==> Lookup(c) == Some(SHORT_VOWELS[c])
    ensures Lookup(c) == None <==>
      c !in CONSONANTS && c !in COMBINED_HAMZA && c !in DIACRITICS && c !in TANWEEN &&
      c !in SHORT_VOWELS && c !in LONG_VOWELS
  {
    TableKeysOverlapOnlyInGlides(c);
  }

  /** The long-vowel table wins for the two glide letters: ya and waw come out as the long
      vowels `i:` and `u:`, although CONSONANTS reads them as `y` and `w`. */
  lemma GlidesReadAsLongVowels()
    ensures CONSONANTS['\U{064A}'] == "y" && Lookup('\U{064A}') == Some("i:")
    ensures CONSONANTS['\U{0648}'] == "w" && Lookup('\U{0648}') == Some("u:")
  {
  }

  /** `initial_replacement`: one loop over the characters, filling slot `i` from the tables. */
  method InitialReplacement(chars: seq<char>, transcrip: array<string>)
    requires |chars| <= transcrip.Length
    modifies transcrip
    ensures transcrip[..] == Replaced(chars, old(transcrip[..]))
  {
    ghost var t := transcrip[..];
    for i := 0 to |chars|
      invariant forall k :: 0 <= k < transcrip.Length ==>
        transcrip[k] == if k < i && Lookup(chars[k]).Some? then Lookup(chars[k]).value else t[k]
    {
      var c := chars[i];
      if c in CONSONANTS {
        transcrip[i] := CONSONANTS[c];
      } else if c in COMBINED_HAMZA {
        transcrip[i] := COMBINED_HAMZA[c];
      } else if c in DIACRITICS {
        transcrip[i] := DIACRITICS[c];
      } else if c in TANWEEN {
        transcrip[i] := TANWEEN[c];
      } else if c in SHORT_VOWELS {
        transcrip[i] := SHORT_VOWELS[c];
      }
      if c in LONG_VOWELS {
        transcrip[i] := LONG_VOWELS[c];
      }
    }
  }
}
