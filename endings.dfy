/** Second pass: the alif-maqsura and tanween rules on the end of the word. */
module EndingNormalizer {
  import opened Tables

  /** Python's list indexing: a negative index counts from the end.  Indices outside
      `-n .. n-1` raise IndexError and are excluded by the precondition. */
  function PyIndex(i: int, n: nat): (r: nat)
    requires -(n as int) <= i < n
    ensures r < n && r == i % n
  {
    if i < 0 then n + i else i
  }

  /** The slot `process_endings` may rewrite: `last_idx - 1` read the Python way, which for a
      one-character word is `-1`, the last (and only) slot. */
  function PenultimateIndex(n: nat): (r: nat)
    requires n >= 1
    ensures r < n
  {
    PyIndex(n - 2, n)
  }

  /** Rule A: final alif maqsura after a combined-hamza letter. */
  predicate HamzaBeforeMaqsura(chars: seq<char>)
    requires |chars| >= 1
  {
    chars[|chars| - 1] == ALIF_MAQSURA && chars[PenultimateIndex(|chars|)] in COMBINED_HAMZA
  }

  /** Rule B: final tanween carried by a long-vowel letter. */
  predicate TanweenOnLongVowel(chars: seq<char>)
    requires |chars| >= 1
  {
    chars[|chars| - 1] in TANWEEN && chars[PenultimateIndex(|chars|)] in LONG_VOWELS
  }

  /** The slot array after `process_endings`, applying rule A and then rule B. */
  function Endings(chars: seq<char>, t: seq<string>): (r: seq<string>)
    requires 1 <= |chars| == |t|
    ensures |r| == |t|
  {
    var p := PenultimateIndex(|chars|);
    var afterA := if HamzaBeforeMaqsura(chars) then t[p := "?"] else t;
    if TanweenOnLongVowel(chars) then afterA[p := ""] else afterA
  }

  /** `process_endings` changes at most the second-to-last slot, and never the length: that
      slot becomes `?` under rule A and is cleared under rule B.  The two rules never both
      apply, and a one-character word is left as it is. */
  lemma EndingsTouchOnlyPenultimate(chars: seq<char>, t: seq<string>)
    requires 1 <= |chars| == |t|
    ensures |Endings(chars, t)| == |t|
    ensures |t| >= 2 ==> forall k :: 0 <= k < |t| && k != |t| - 2 ==> Endings(chars, t)[k] == t[k]
    ensures |t| == 1 ==> Endings(chars, t) == t
    ensures !(HamzaBeforeMaqsura(chars) && TanweenOnLongVowel(chars))
    ensures |t| >= 2 && HamzaBeforeMaqsura(chars) ==> Endings(chars, t)[|t| - 2] == "?"
    ensures |t| >= 2 && TanweenOnLongVowel(chars) ==> Endings(chars, t)[|t| - 2] == ""
    ensures |t| >= 2 && !HamzaBeforeMaqsura(chars) && !TanweenOnLongVowel(chars) ==>
      Endings(chars, t)[|t| - 2] == t[|t| - 2]
  {
    var c := chars[|chars| - 1];
    TableKeysOverlapOnlyInGlides(c);
    if |t| == 1 {
      assert c != ALIF_MAQSURA || c !in COMBINED_HAMZA;
    }
  }

  /** `process_endings`.  It faults (IndexError) on an empty word, hence the precondition. */
  method ProcessEndings(chars: seq<char>, transcrip: array<string>)
    requires 1 <= |chars| == transcrip.Length
    modifies transcrip
    ensures transcrip[..] == Endings(chars, old(transcrip[..]))
  {
    var lastIdx := |chars| - 1;
    var prev := PyIndex(lastIdx - 1, |chars|);
    if chars[lastIdx] == ALIF_MAQSURA && chars[prev] in COMBINED_HAMZA {
      transcrip[prev] := "?";
    }
    if chars[lastIdx] in TANWEEN {
      if chars[prev] in LONG_VOWELS {
        transcrip[prev] := "";
      }
    }
  }
}
