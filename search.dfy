/** `Array.prototype.findIndex` and the `findIndex` + `splice(i, 1)` idiom the servers use on rosters. */
module Search {

  /** The first index whose element satisfies `p`, or -1. */
  function FirstIndex<T>(s: seq<T>, p: T -> bool): (i: int)
    ensures -1 <= i < |s|
    ensures i == -1 <==> forall j :: 0 <= j < |s| ==> !p(s[j])
    ensures 0 <= i ==> p(s[i]) && forall j :: 0 <= j < i ==> !p(s[j])
  {
    if |s| == 0 then -1
    else if p(s[0]) then 0
    else
      var k := FirstIndex(s[1..], p);
      if k == -1 then -1 else k + 1
  }

  /** The loop behind `findIndex`, scanning from the front. */
  method FindIndex<T>(s: seq<T>, p: T -> bool) returns (i: int)
    ensures i == FirstIndex(s, p)
  {
    i := 0;
    while i < |s|
      invariant 0 <= i <= |s|
      invariant forall j :: 0 <= j < i ==> !p(s[j])
    {
      if p(s[i]) {
        return;
      }
      i := i + 1;
    }
    i := -1;
  }

  /** `s.splice(s.findIndex(p), 1)` guarded by `!== -1`: drops the first match only. */
  function WithoutFirst<T>(s: seq<T>, p: T -> bool): seq<T>
  {
    var i := FirstIndex(s, p);
    if i == -1 then s else s[..i] + s[i + 1..]
  }

  /** Removing the first match drops exactly that element and keeps the rest in order. */
  lemma WithoutFirstShape<T>(s: seq<T>, p: T -> bool)
    ensures var r := WithoutFirst(s, p); var i := FirstIndex(s, p);
      && (i == -1 ==> r == s)
      && (i >= 0 ==>
            && |r| == |s| - 1
            && (forall j :: 0 <= j < i ==> r[j] == s[j])
            && (forall j :: i <= j < |r| ==> r[j] == s[j + 1]))
  {
    var i := FirstIndex(s, p);
    if i >= 0 {
      var r := s[..i] + s[i + 1..];
      assert WithoutFirst(s, p) == r;
      assert |r| == |s| - 1;
    }
  }

  /** Every element left after the removal was in the input, and the input's elements survive unless they were the match. */
  lemma WithoutFirstSubset<T>(s: seq<T>, p: T -> bool, x: T)
    ensures x in WithoutFirst(s, p) ==> x in s
    ensures x in s && !p(x) ==> x in WithoutFirst(s, p)
  {
    var i := FirstIndex(s, p);
    if i >= 0 {
      assert s == s[..i] + [s[i]] + s[i + 1..];
    }
  }
}
