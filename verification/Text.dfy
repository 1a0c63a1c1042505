/** Substring search, as `str.find` does it. */
module Text {
  import opened Prelude

  predicate OccursAt(text: string, sub: string, i: nat) {
    i + |sub| <= |text| && text[i..i + |sub|] == sub
  }

  /** The first occurrence at or after `from`. */
  function Find(text: string, sub: string, from: nat): (r: Option<nat>)
    ensures r.Some? ==> r.value >= from && OccursAt(text, sub, r.value)
    ensures r.Some? ==> forall i :: from <= i < r.value ==> !OccursAt(text, sub, i)
    ensures r.None? ==> forall i :: i >= from ==> !OccursAt(text, sub, i)
    decreases |text| - from
  {
    if from + |sub| > |text| then None
    else if OccursAt(text, sub, from) then Some(from)
    else Find(text, sub, from + 1)
  }
}
