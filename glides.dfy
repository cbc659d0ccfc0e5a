/** Fourth pass: glide letters read as consonants at the word start and before a long vowel. */
module GlideDisambiguator {
  import opened Tables

  /** The first slot of the word proper: the article's two slots are skipped. */
  function Start(containsAl: bool): nat {
    if containsAl then 2 else 0
  }

  /** The word-initial rule: a long vowel at `start` takes its consonant reading. */
  function InitialRule(t: seq<string>, start: nat): seq<string>
    requires start < |t|
  {
    if t[start] in LONG_TO_SHORT then t[start := LONG_TO_SHORT[t[start]]] else t
  }

  /** One iteration of the adjacency loop at index `i`, reading the slots as they stand. */
  function GlideStep(t: seq<string>, i: nat): seq<string>
    requires i + 1 < |t|
  {
    if t[i] in LONG_TO_SHORT && t[i + 1] in LONG_TO_SHORT then t[i := LONG_TO_SHORT[t[i]]] else t
  }

  /** The iterations `lo, lo + 1, ..., hi - 1` of the adjacency loop, run in that order, each
      on the state the previous ones left (none when `hi <= lo`, as with Python's `range`). */
  function GlideLoop(t: seq<string>, lo: nat, hi: nat): (r: seq<string>)
    requires hi <= lo || hi < |t|
    ensures |r| == |t|
    decreases hi - lo
  {
    if hi <= lo then t else GlideStep(GlideLoop(t, lo, hi - 1), hi - 1)
  }

  /** The slot array after `process_vowels`: the word-initial rule at `start`, then the
      adjacency loop over `start + 1 .. |t| - 2`. */
  function Glides(t: seq<string>, start: nat): (r: seq<string>)
    requires start < |t|
    ensures |r| == |t|
  {
    GlideLoop(InitialRule(t, start), start + 1, |t| - 1)
  }

  /** A single left-to-right pass decides every index on the slots as they were before the
      loop: iteration `i` only ever rewrites slot `i`, and the slots `i` and `i + 1` it reads
      have not been rewritten by the iterations before it. */
  lemma {:induction false} GlideLoopReadsOriginal(t: seq<string>, lo: nat, hi: nat, k: nat)
    requires hi <= lo || hi < |t|
    requires k < |t|
    ensures GlideLoop(t, lo, hi)[k] ==
      if lo <= k < hi && t[k] in LONG_TO_SHORT && t[k + 1] in LONG_TO_SHORT
      then LONG_TO_SHORT[t[k]] else t[k]
  {
    if hi > lo {
      GlideLoopReadsOriginal(t, lo, hi - 1, k);
      GlideLoopReadsOriginal(t, lo, hi - 1, hi - 1);
      GlideLoopReadsOriginal(t, lo, hi - 1, hi);
    }
  }

  /** Slot `k` after `process_vowels`, stated on the input slots alone: the slot at `start`
      loses a long vowel; an interior slot loses its long vowel when the next input slot is
      one too; the slots before `start` and the last slot (when it is not `start`) stay. */
  lemma GlidesSlot(t: seq<string>, start: nat, k: nat)
    requires start < |t| && k < |t|
    ensures |Glides(t, start)| == |t|
    ensures Glides(t, start)[k] ==
      if k == start then (if t[k] in LONG_TO_SHORT then LONG_TO_SHORT[t[k]] else t[k])
      else if start < k < |t| - 1 && t[k] in LONG_TO_SHORT && t[k + 1] in LONG_TO_SHORT
      then LONG_TO_SHORT[t[k]]
      else t[k]
  {
    GlideLoopReadsOriginal(InitialRule(t, start), start + 1, |t| - 1, k);
  }

  /** `process_vowels` keeps the length, never touches the slots before `start` nor the last
      slot (unless that is `start` itself), and leaves no long vowel at `start`. */
  lemma GlidesFrame(t: seq<string>, start: nat)
    requires start < |t|
    ensures |Glides(t, start)| == |t|
    ensures Glides(t, start)[..start] == t[..start]
    ensures start < |t| - 1 ==> Glides(t, start)[|t| - 1] == t[|t| - 1]
    ensures !IsLongVowel(Glides(t, start)[start])
  {
    var r := Glides(t, start);
    forall k | 0 <= k < start ensures r[k] == t[k] {
      GlidesSlot(t, start, k);
    }
    GlidesSlot(t, start, |t| - 1);
    GlidesSlot(t, start, start);
    if t[start] in LONG_TO_SHORT {
      LongToShortLeavesNoLongVowel(t[start]);
    }
  }

  /** After `process_vowels` no two adjacent slots from `start` on both hold a long vowel:
      the left one of every such input pair is rewritten to a consonant, and no consonant
      reading is itself a long vowel. */
  lemma NoAdjacentLongVowels(t: seq<string>, start: nat, i: nat)
    requires start <= i < |t| - 1
    ensures !(IsLongVowel(Glides(t, start)[i]) && IsLongVowel(Glides(t, start)[i + 1]))
  {
    GlidesSlot(t, start, i);
    GlidesSlot(t, start, i + 1);
    if t[i] in LONG_TO_SHORT {
      LongToShortLeavesNoLongVowel(t[i]);
    }
    if t[i + 1] in LONG_TO_SHORT {
      LongToShortLeavesNoLongVowel(t[i + 1]);
    }
  }

  /** A run of exactly three long vowels from `start` on ends as consonant, consonant, vowel:
      the first two take their consonant readings, the third (followed by no long vowel)
      stays a vowel. */
  lemma ThreeLongVowelRun(t: seq<string>, start: nat, i: nat)
    requires start <= i && i + 2 < |t|
    requires IsLongVowel(t[i]) && IsLongVowel(t[i + 1]) && IsLongVowel(t[i + 2])
    requires i + 3 == |t| || !IsLongVowel(t[i + 3])
    ensures Glides(t, start)[i] == LONG_TO_SHORT[t[i]] && !IsLongVowel(Glides(t, start)[i])
    ensures Glides(t, start)[i + 1] == LONG_TO_SHORT[t[i + 1]] && !IsLongVowel(Glides(t, start)[i + 1])
    ensures Glides(t, start)[i + 2] == t[i + 2]
  {
    GlidesSlot(t, start, i);
    GlidesSlot(t, start, i + 1);
    GlidesSlot(t, start, i + 2);
    LongToShortLeavesNoLongVowel(t[i]);
    LongToShortLeavesNoLongVowel(t[i + 1]);
  }

  /** `process_vowels`, in place.  It indexes slot `start`, so that slot must exist. */
  method ProcessVowels(transcrip: array<string>, containsAl: bool)
    requires Start(containsAl) < transcrip.Length
    modifies transcrip
    ensures transcrip[..] == Glides(old(transcrip[..]), Start(containsAl))
  {
    var start := if containsAl then 2 else 0;
    if transcrip[start] in LONG_TO_SHORT {
      transcrip[start] := LONG_TO_SHORT[transcrip[start]];
    }
    ghost var initial := transcrip[..];
    var i := start + 1;
    while i < transcrip.Length - 1
      invariant start + 1 <= i && (i == start + 1 || i <= transcrip.Length - 1)
      invariant transcrip[..] == GlideLoop(initial, start + 1, i)
    {
      var current := transcrip[i];
      var next := transcrip[i + 1];
      if current in LONG_TO_SHORT {
        if next in LONG_TO_SHORT {
          transcrip[i] := LONG_TO_SHORT[transcrip[i]];
        }
      }
      i := i + 1;
    }
  }
}
