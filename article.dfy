/** Third pass: the definite article and sun-letter assimilation. */
module ArticleAssimilator {
  import opened Tables

  /** The slot array after `process_al`: slot 0 becomes the article's `?a`; when slot 2 holds a
      sun-letter phoneme, the article's `l` (slot 1) takes that phoneme and slot 2 becomes
      the length mark. */
  function Article(t: seq<string>): (r: seq<string>)
    requires |t| >= 3
    ensures |r| == |t|
  {
    var t := t[0 := "?a"];
    if t[2] in SUN_LETTERS then t[1 := t[2]][2 := ":"] else t
  }

  /** What `process_al` does, slot by slot: slot 0 is `?a`; slots 1 and 2 are the doubled
      sun letter and `:` exactly when the old slot 2 is a sun letter, and are unchanged
      otherwise; the length and every slot from index 3 on stay as they were. */
  lemma ArticleEffect(t: seq<string>)
    requires |t| >= 3
    ensures |Article(t)| == |t| && Article(t)[3..] == t[3..]
    ensures Article(t)[0] == "?a"
    ensures t[2] in SUN_LETTERS ==> Article(t)[1] == t[2] && Article(t)[2] == ":"
    ensures t[2] !in SUN_LETTERS ==> Article(t)[1] == t[1] && Article(t)[2] == t[2]
  {
  }

  /** `process_al`.  It indexes slot 2, so a word of fewer than three slots faults. */
  method ProcessAl(transcrip: array<string>)
    requires transcrip.Length >= 3
    modifies transcrip
    ensures transcrip[..] == Article(old(transcrip[..]))
  {
    transcrip[0] := "?a";
    if transcrip[2] in SUN_LETTERS {
      transcrip[1] := transcrip[2];
      transcrip[2] := ":";
    }
  }
}
