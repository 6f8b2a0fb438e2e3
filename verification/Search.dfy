/** Looking through a sequence from its front. */
module Search {

  /** Where the first element with the property is, or the length if there is none. */
  function First<T>(s: seq<T>, has: T -> bool): (i: nat)
    ensures i <= |s|
    ensures i < |s| ==> has(s[i])
    ensures forall j :: 0 <= j < i ==> !has(s[j])
  {
    if s == [] || has(s[0]) then 0 else 1 + First(s[1..], has)
  }
}
