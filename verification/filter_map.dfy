/**
 * The shape shared by both collection loops of the capture library: walk a
 * sequence in order, push the value a per-element step produces, and skip the
 * elements for which it produces nothing.
 */
module FilterMaps {
  import opened Basics

  /** What `f` keeps of `s`, in the order of `s`. Defined on the last element so
      that a loop over `s[..i]` extends it one step at a time. */
  function FilterMap<T, U>(s: seq<T>, f: T -> Option<U>): (r: seq<U>)
    ensures |r| <= |s|
  {
    if |s| == 0 then []
    else
      var init := FilterMap(s[..|s| - 1], f);
      match f(s[|s| - 1])
      case Some(u) => init + [u]
      case None => init
  }

  /** The positions of `s` that contributed to `FilterMap(s, f)`, in order. */
  function KeptIndices<T, U>(s: seq<T>, f: T -> Option<U>): (idx: seq<nat>)
    ensures |idx| == |FilterMap(s, f)|
    ensures forall k :: 0 <= k < |idx| ==> idx[k] < |s|
  {
    if |s| == 0 then []
    else
      var init := KeptIndices(s[..|s| - 1], f);
      if f(s[|s| - 1]).Some? then init + [|s| - 1] else init
  }

  /** Each kept value is what `f` made of the element at its kept position,
      the positions strictly increase (order is kept, and no element
      contributes twice), and every element `f` accepts is among them. */
  lemma {:induction false} KeptIndicesCorrect<T, U>(s: seq<T>, f: T -> Option<U>)
    ensures var r, idx := FilterMap(s, f), KeptIndices(s, f);
      && |idx| == |r|
      && (forall k :: 0 <= k < |idx| ==> idx[k] < |s| && f(s[idx[k]]) == Some(r[k]))
      && (forall k, l :: 0 <= k < l < |idx| ==> idx[k] < idx[l])
      && (forall i :: 0 <= i < |s| && f(s[i]).Some? ==> i in idx)
  {
    if |s| > 0 {
      var s' := s[..|s| - 1];
      KeptIndicesCorrect(s', f);
      var r', idx' := FilterMap(s', f), KeptIndices(s', f);
      var r, idx := FilterMap(s, f), KeptIndices(s, f);
      forall k | 0 <= k < |idx|
        ensures idx[k] < |s| && f(s[idx[k]]) == Some(r[k])
      {
        if k < |idx'| {
          assert idx[k] == idx'[k] && r[k] == r'[k];
          assert s[idx[k]] == s'[idx'[k]];
        }
      }
      forall i | 0 <= i < |s| && f(s[i]).Some?
        ensures i in idx
      {
        if i < |s| - 1 {
          assert s[i] == s'[i];
          assert i in idx';
        } else {
          assert idx[|idx| - 1] == i;
        }
      }
    }
  }

  /** A value is kept exactly when `f` produced it from some element. */
  lemma FilterMapMember<T, U>(s: seq<T>, f: T -> Option<U>, u: U)
    ensures u in FilterMap(s, f) <==> exists i :: 0 <= i < |s| && f(s[i]) == Some(u)
  {
    KeptIndicesCorrect(s, f);
    var r, idx := FilterMap(s, f), KeptIndices(s, f);
    if u in r {
      var k :| 0 <= k < |r| && r[k] == u;
      assert f(s[idx[k]]) == Some(u);
    }
    if i :| 0 <= i < |s| && f(s[i]) == Some(u) {
      assert i in idx;
      var k :| 0 <= k < |idx| && idx[k] == i;
      assert r[k] == u;
    }
  }

  /** Scanning a concatenation is scanning each part in turn. */
  lemma {:induction false} FilterMapAppend<T, U>(a: seq<T>, b: seq<T>, f: T -> Option<U>)
    ensures FilterMap(a + b, f) == FilterMap(a, f) + FilterMap(b, f)
  {
    if |b| == 0 {
      assert a + b == a;
    } else {
      var b' := b[..|b| - 1];
      assert (a + b)[..|a + b| - 1] == a + b';
      assert (a + b)[|a + b| - 1] == b[|b| - 1];
      FilterMapAppend(a, b', f);
    }
  }
}
