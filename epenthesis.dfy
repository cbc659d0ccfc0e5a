/** Fifth pass: an epenthetic `a` after a bare initial consonant. */
module EpenthesisInserter {
  import opened Tables
  import opened GlideDisambiguator

  /** Python's `list.insert(i, x)` for an index inside the list. */
  function Insert(s: seq<string>, i: nat, x: string): (r: seq<string>)
    requires i <= |s|
    ensures |r| == |s| + 1 && r[i] == x
    ensures r[..i] == s[..i] && r[i + 1..] == s[i..]
  {
    s[..i] + [x] + s[i..]
  }

  /** `add_short_vowels` reads the slot after `start` only when the slot at `start` is a
      consonant value; when there is no such slot it raises IndexError. */
  predicate EpenthesisFaults(t: seq<string>, start: nat)
    requires start < |t|
  {
    t[start] in CONSONANTS.Values && start + 1 == |t|
  }

  /** The insertion condition: a consonant value at `start` followed by neither a short vowel,
      the feminine-ending `a` nor the long `A:`. */
  predicate NeedsVowel(t: seq<string>, start: nat)
    requires start + 1 < |t|
  {
    var next := t[start + 1];
    t[start] in CONSONANTS.Values && next !in SHORT_VOWELS.Values && next != "a" && next != "A:"
  }

  /** The slot array after `add_short_vowels`. */
  function Epenthesis(t: seq<string>, start: nat): seq<string>
    requires start < |t| && !EpenthesisFaults(t, start)
  {
    if t[start] in CONSONANTS.Values && NeedsVowel(t, start) then
      var next := t[start + 1];
      var u := Insert(t, start + 1, "a");
      if next in LONG_TO_SHORT then u[start + 2 := LONG_TO_SHORT[next]] else u
    else t
  }

  /** `add_short_vowels` returns the list unchanged or inserts exactly one `a` right after
      `start`, the insertion happening exactly when the slot at `start` is a consonant value
      and the next slot is none of `a`, `u`, `I`, `A:`; the slot pushed to `start + 2` then
      reads `w` for `u:` and `y` for `i:` and is otherwise kept, and all other slots are only
      shifted. */
  lemma EpenthesisEffect(t: seq<string>, start: nat)
    requires start < |t| && !EpenthesisFaults(t, start)
    ensures var r := Epenthesis(t, start);
      && (|r| == |t| + 1 <==>
           t[start] in CONSONANTS.Values && t[start + 1] !in {"a", "u", "I", "A:"})
      && (|r| != |t| + 1 ==> r == t)
      && (|r| == |t| + 1 ==>
           && r[..start + 1] == t[..start + 1]
           && r[start + 1] == "a"
           && r[start + 2] == (if t[start + 1] == "u:" then "w"
                               else if t[start + 1] == "i:" then "y"
                               else t[start + 1])
           && r[start + 3..] == t[start + 2..])
  {
    if t[start] in CONSONANTS.Values {
      ShortVowelValues(t[start + 1]);
      var r := Epenthesis(t, start);
      if NeedsVowel(t, start) {
        var u := Insert(t, start + 1, "a");
        assert r[..start + 1] == u[..start + 1];
        assert r[start + 3..] == u[start + 3..];
        assert u[start + 3..] == u[start + 2..][1..];
      }
    }
  }

  /** Python's `list.insert(i, x)`, which shifts the tail one place right.  The grown list is
      a new array of one more slot. */
  method InsertSlot(a: array<string>, i: nat, x: string) returns (b: array<string>)
    requires i <= a.Length
    ensures fresh(b)
    ensures b[..] == Insert(a[..], i, x)
  {
    ghost var target := Insert(a[..], i, x);
    b := new string[a.Length + 1];
    var k := 0;
    while k < b.Length
      invariant k <= b.Length
      invariant b[..k] == target[..k]
    {
      b[k] := if k < i then a[k] else if k == i then x else a[k - 1];
      assert b[k] == target[k];
      k := k + 1;
    }
  }

  /** `add_short_vowels`.  It returns the same array when nothing is inserted. */
  method AddShortVowels(transcrip: array<string>, containsAl: bool) returns (result: array<string>)
    requires Start(containsAl) < transcrip.Length
    requires !EpenthesisFaults(transcrip[..], Start(containsAl))
    ensures result == transcrip || fresh(result)
    ensures result[..] == Epenthesis(transcrip[..], Start(containsAl))
  {
    var start := if containsAl then 2 else 0;
    result := transcrip;
    if transcrip[start] in CONSONANTS.Values {
      var next := transcrip[start + 1];
      if !(next in SHORT_VOWELS.Values) && !(next == "a") && !(next == "A:") {
        result := InsertSlot(transcrip, start + 1, "a");
        if next in LONG_TO_SHORT {
          result[start + 2] := LONG_TO_SHORT[next];
        }
      }
    }
  }
}
