/** Searching a text for a character. */
module TextSearch {
  import opened Common

  /** First position of a character from `i` on. */
  function Find(text: string, i: nat, c: char): (r: Option<nat>)
    requires i <= |text|
    ensures r.Some? ==> i <= r.value < |text| && text[r.value] == c && forall k | i <= k < r.value :: text[k] != c
    ensures r.None? ==> forall k | i <= k < |text| :: text[k] != c
    decreases |text| - i
  {
    if i == |text| then None else if text[i] == c then Some(i) else Find(text, i + 1, c)
  }

  lemma NotIn(text: string, i: nat, j: nat, c: char)
    requires i <= j <= |text|
    ensures c !in text[i..j] <==> forall k | i <= k < j :: text[k] != c
  {
    if c in text[i..j] {
      var k :| 0 <= k < j - i && text[i..j][k] == c;
      assert text[i + k] == c;
    }
    if k :| i <= k < j && text[k] == c {
      assert text[i..j][k - i] == c;
    }
  }
}
