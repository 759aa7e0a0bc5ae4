/** `vs.indexInList` (vs.js:158-164). */
module Helpers {

  /** The position of the last element of `list` equal to `str`, or 0 when
      there is none: the specification of `IndexInList`. */
  function LastIndex(str: string, list: seq<string>): (idx: nat)
    ensures |list| > 0 ==> idx < |list|
    decreases |list|
  {
    if |list| == 0 then 0
    else if list[|list| - 1] == str then |list| - 1
    else LastIndex(str, list[..|list| - 1])
  }

  /** The last match wins; without a match the answer is the first element. */
  lemma {:induction false} LastIndexMeaning(str: string, list: seq<string>)
    ensures var idx := LastIndex(str, list);
      (str in list ==> list[idx] == str && forall j :: idx < j < |list| ==> list[j] != str) &&
      (str !in list ==> idx == 0)
    decreases |list|
  {
    if |list| > 0 && list[|list| - 1] != str {
      var front := list[..|list| - 1];
      LastIndexMeaning(str, front);
      assert list == front + [list[|list| - 1]];
      assert str in list ==> str in front;
    }
  }

  /** The loop of `vs.indexInList`: every match overwrites the answer. */
  method IndexInList(str: string, list: seq<string>) returns (idx: nat)
    ensures idx == LastIndex(str, list)
  {
    idx := 0;
    var i := 0;
    while i < |list|
      invariant 0 <= i <= |list|
      invariant idx == LastIndex(str, list[..i])
    {
      assert list[..i + 1][..i] == list[..i];
      if list[i] == str {
        idx := i;
      }
      i := i + 1;
    }
    assert list[..|list|] == list;
  }
}
