/** The first-match linear scan that the texture registry and the material
    table both perform: walk from index 0 and stop at the first equal tag. */
module Search {

  /** The index of the first element of `s` equal to `x`, or -1 when `x`
      does not occur in `s`. */
  function FirstIndex<T(==)>(s: seq<T>, x: T): (r: int)
    ensures -1 <= r < |s|
    ensures r == -1 <==> x !in s
    ensures r >= 0 ==> s[r] == x && x !in s[..r]
  {
    if |s| == 0 then -1
    else if s[0] == x then 0
    else
      var k := FirstIndex(s[1..], x);
      assert s == [s[0]] + s[1..];
      if k == -1 then -1
      else
        assert s[..k + 1] == [s[0]] + s[1..][..k];
        k + 1
  }

  /** Appending an element never moves an existing first match, and the
      appended element is found only when nothing earlier matched. */
  lemma {:induction false} FirstIndexAppend<T>(s: seq<T>, y: T, x: T)
    ensures FirstIndex(s + [y], x)
            == if x in s then FirstIndex(s, x) else if y == x then |s| else -1
  {
    var t := s + [y];
    assert t[..|s|] == s;
    if x in s {
      var k := FirstIndex(s, x);
      assert t[..k] == s[..k];
    } else if y == x {
      assert t[|s|] == x;
    } else {
      assert x !in t;
    }
  }

  /** The key of each element, in order: the tags the scan compares. */
  function Keys<T>(s: seq<T>, key: T -> string): (r: seq<string>)
    ensures |r| == |s|
    ensures forall i :: 0 <= i < |s| ==> r[i] == key(s[i])
  {
    seq(|s|, i requires 0 <= i < |s| => key(s[i]))
  }

  /** The index of the first element whose key is `x`, or -1 when no
      element has that key. */
  function FirstKeyIndex<T>(s: seq<T>, key: T -> string, x: string): (r: int)
    ensures -1 <= r < |s|
    ensures r == -1 <==> forall i :: 0 <= i < |s| ==> key(s[i]) != x
    ensures r >= 0 ==> key(s[r]) == x
    ensures r >= 0 ==> forall i :: 0 <= i < r ==> key(s[i]) != x
  {
    var keys := Keys(s, key);
    var r := FirstIndex(keys, x);
    assert r == -1 ==> forall i :: 0 <= i < |s| ==> keys[i] != x;
    assert r >= 0 ==> forall i :: 0 <= i < r ==> keys[..r][i] != x;
    r
  }

  /** Appending an element never moves an existing first match, and the
      appended element is found only when nothing earlier matched. */
  lemma FirstKeyIndexAppend<T>(s: seq<T>, key: T -> string, y: T, x: string)
    ensures FirstKeyIndex(s + [y], key, x)
            == if FirstKeyIndex(s, key, x) != -1 then FirstKeyIndex(s, key, x)
               else if key(y) == x then |s| else -1
  {
    assert Keys(s + [y], key) == Keys(s, key) + [key(y)];
    FirstIndexAppend(Keys(s, key), key(y), x);
  }

  /** Sequences with the same keys in the same order give the same first
      match. */
  lemma FirstKeyIndexSameKeys<T>(s: seq<T>, t: seq<T>, key: T -> string, x: string)
    requires |s| == |t|
    requires forall i :: 0 <= i < |s| ==> key(s[i]) == key(t[i])
    ensures FirstKeyIndex(s, key, x) == FirstKeyIndex(t, key, x)
  {
    assert Keys(s, key) == Keys(t, key);
  }
}
