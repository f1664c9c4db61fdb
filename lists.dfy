/** The JavaScript array operations the broker relies on (`find`/`findIndex`, `splice`,
    `filter`), stated once over sequences. */
module Lists {
  import opened Values

  /** `findIndex`: the position of the first element satisfying `f`, if any. */
  function FirstWhere<T>(s: seq<T>, f: T -> bool): (k: Option<nat>)
    ensures k.Some? ==> k.value < |s| && f(s[k.value])
    ensures k.Some? ==> forall j :: 0 <= j < k.value ==> !f(s[j])
    ensures k.None? <==> forall j :: 0 <= j < |s| ==> !f(s[j])
  {
    if |s| == 0 then None
    else if f(s[0]) then Some(0)
    else match FirstWhere(s[1..], f)
      case None => None
      case Some(k) => Some(k + 1)
  }

  /** `splice(k, 1)`: drop the element at position `k`. */
  function RemoveAt<T>(s: seq<T>, k: nat): (r: seq<T>)
    requires k < |s|
    ensures |r| == |s| - 1
    ensures forall j :: 0 <= j < k ==> r[j] == s[j]
    ensures forall j :: k <= j < |r| ==> r[j] == s[j + 1]
  {
    s[..k] + s[k + 1..]
  }

  /** `filter`: the elements satisfying `f`, in their original order. */
  function Filter<T>(s: seq<T>, f: T -> bool): (r: seq<T>)
    ensures |r| <= |s|
    ensures forall x :: x in r ==> x in s && f(x)
    ensures forall x :: x in s && f(x) ==> x in r
  {
    if |s| == 0 then []
    else
      var init := s[..|s| - 1];
      assert forall x :: x in s ==> x in init || x == s[|s| - 1];
      Filter(init, f) + (if f(s[|s| - 1]) then [s[|s| - 1]] else [])
  }

  /** `filter` keeps order: filtering a list extended by one element extends the result by
      that element exactly when it passes. */
  lemma {:induction false} FilterSnoc<T>(s: seq<T>, x: T, f: T -> bool)
    ensures Filter(s + [x], f) == Filter(s, f) + (if f(x) then [x] else [])
  {
    assert (s + [x])[..|s + [x]| - 1] == s;
  }

  /** `filter` keeps multiplicity: every passing element occurs in the result as often as in
      the input, and no other element occurs at all. */
  lemma {:induction false} FilterCounts<T>(s: seq<T>, f: T -> bool)
    ensures forall x :: multiset(Filter(s, f))[x] == (if f(x) then multiset(s)[x] else 0)
  {
    if |s| > 0 {
      var init, last := s[..|s| - 1], s[|s| - 1];
      assert s == init + [last];
      FilterCounts(init, f);
      FilterSnoc(init, last, f);
    }
  }

  /** Filtering keeps everything exactly when every element passes. */
  lemma {:induction false} FilterAllKept<T>(s: seq<T>, f: T -> bool)
    requires forall x :: x in s ==> f(x)
    ensures Filter(s, f) == s
  {
    if |s| > 0 {
      var init, last := s[..|s| - 1], s[|s| - 1];
      assert s == init + [last];
      assert f(last);
      forall x | x in init ensures f(x) { assert x in s; }
      FilterAllKept(init, f);
      assert Filter(s, f) == Filter(init, f) + [last];
    }
  }

  /** Filtering distributes over concatenation. */
  lemma {:induction false} FilterAppend<T>(a: seq<T>, b: seq<T>, f: T -> bool)
    ensures Filter(a + b, f) == Filter(a, f) + Filter(b, f)
  {
    if |b| == 0 {
      assert a + b == a;
    } else {
      var init := b[..|b| - 1];
      assert (a + b)[..|a + b| - 1] == a + init;
      assert (a + b)[|a + b| - 1] == b[|b| - 1];
      FilterAppend(a, init, f);
    }
  }

  /** `splice(start)` with a single argument: everything from `start` on is removed, a
      negative `start` counting back from the end and clamped at 0. What is left is a prefix. */
  function JsSplice<T>(s: seq<T>, start: int): (r: seq<T>)
    ensures |r| <= |s| && r == s[..|r|]
    ensures start < 0 ==> |r| == if |s| + start < 0 then 0 else |s| + start
    ensures 0 <= start ==> |r| == if start <= |s| then start else |s|
  {
    var from := if start < 0 then (if |s| + start < 0 then 0 else |s| + start)
                else if start <= |s| then start else |s|;
    s[..from]
  }
}
