/** Failure-aware results and the few facts about sequences that every part of the model shares. */
module Common {

  datatype Option<+T> = None | Some(value: T)

  datatype Result<+T> = Ok(value: T) | Err(error: string)

  function Min(a: int, b: int): int {
    if a <= b then a else b
  }

  function Max(a: int, b: int): int {
    if a <= b then b else a
  }

  /** No element occurs twice. */
  ghost predicate Distinct<T>(s: seq<T>) {
    forall i, j :: 0 <= i < j < |s| ==> s[i] != s[j]
  }

  /** The elements satisfying `p`, in their original order. */
  function Filter<T>(p: T -> bool, s: seq<T>): (r: seq<T>) {
    if |s| == 0 then []
    else Filter(p, s[..|s| - 1]) + (if p(s[|s| - 1]) then [s[|s| - 1]] else [])
  }

  lemma {:induction false} FilterMember<T>(p: T -> bool, s: seq<T>, x: T)
    ensures x in Filter(p, s) <==> x in s && p(x)
  {
    if |s| == 0 {
    } else {
      var front := s[..|s| - 1];
      assert s == front + [s[|s| - 1]];
      FilterMember(p, front, x);
    }
  }

  lemma FilterSnoc<T>(p: T -> bool, s: seq<T>, x: T)
    ensures Filter(p, s + [x]) == Filter(p, s) + (if p(x) then [x] else [])
  {
    assert (s + [x])[..|s|] == s;
  }

  lemma {:induction false} FilterConcat<T>(p: T -> bool, s: seq<T>, t: seq<T>)
    ensures Filter(p, s + t) == Filter(p, s) + Filter(p, t)
  {
    if |t| == 0 {
      assert s + t == s;
    } else {
      var front, last := t[..|t| - 1], t[|t| - 1];
      assert s + t == (s + front) + [last] && t == front + [last];
      FilterSnoc(p, s + front, last);
      FilterSnoc(p, front, last);
      FilterConcat(p, s, front);
    }
  }

  lemma FilterWithout<T>(p: T -> bool, s: seq<T>, i: nat)
    requires i < |s|
    ensures |Filter(p, s)| == |Filter(p, s[..i] + s[i + 1..])| + (if p(s[i]) then 1 else 0)
  {
    assert s == (s[..i] + [s[i]]) + s[i + 1..];
    FilterConcat(p, s[..i] + [s[i]], s[i + 1..]);
    FilterSnoc(p, s[..i], s[i]);
    FilterConcat(p, s[..i], s[i + 1..]);
  }

  lemma MultisetWithout<T>(s: seq<T>, i: nat)
    requires i < |s|
    ensures multiset(s[..i] + s[i + 1..]) == multiset(s) - multiset{s[i]}
  {
    assert s == s[..i] + ([s[i]] + s[i + 1..]);
  }

  /** How many elements pass does not depend on their order. */
  lemma {:induction false} FilterPermuted<T>(p: T -> bool, s: seq<T>, t: seq<T>)
    requires multiset(s) == multiset(t)
    ensures |Filter(p, s)| == |Filter(p, t)|
  {
    if s == [] {
      assert |t| == |multiset(t)|;
    } else {
      var last := |s| - 1;
      assert s[last] in multiset(t);
      var i: nat :| i < |t| && t[i] == s[last];
      MultisetWithout(s, last);
      MultisetWithout(t, i);
      FilterPermuted(p, s[..last] + s[last + 1..], t[..i] + t[i + 1..]);
      FilterWithout(p, s, last);
      FilterWithout(p, t, i);
    }
  }
}
