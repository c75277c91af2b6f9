/** Remote-status responses and the dictionaries the commands build from
    them. A Python dict built from a sequence of (key, value) pairs keeps the
    value of the LAST pair for each key; `d.update(page)` lets the later page
    win. `Last` is the reference definition those dictionaries are measured
    against. */
module Joins {
  import opened Outcomes

  /** One router's answer inside a remote-status listing
      (`get_pager('remote', path, id__in=...)`). */
  datatype Response<T> = Response(id: int, success: bool, data: seq<T>)

  /** The entries of the successful responses, in response order. */
  function SuccessfulData<T>(pages: seq<Response<T>>): seq<T>
  {
    if |pages| == 0 then []
    else
      SuccessfulData(pages[..|pages| - 1])
        + (var p := pages[|pages| - 1]; if p.success then p.data else [])
  }

  /** For each entry of `SuccessfulData(pages)`, the id of the response it came from. */
  function SuccessfulOrigins<T>(pages: seq<Response<T>>): (ids: seq<int>)
    ensures |ids| == |SuccessfulData(pages)|
  {
    if |pages| == 0 then []
    else
      var p := pages[|pages| - 1];
      SuccessfulOrigins(pages[..|pages| - 1]) + (if p.success then seq(|p.data|, _ => p.id) else [])
  }

  /** The last entry whose key is `k`, if any. */
  function Last<T>(xs: seq<T>, keyOf: T -> string, k: string): (r: Option<T>)
    ensures r.Some? <==> exists i :: 0 <= i < |xs| && keyOf(xs[i]) == k
    ensures r.Some? ==>
      exists i :: 0 <= i < |xs| && xs[i] == r.value && keyOf(xs[i]) == k &&
        forall j :: i < j < |xs| ==> keyOf(xs[j]) != k
  {
    if |xs| == 0 then None
    else if keyOf(xs[|xs| - 1]) == k then Some(xs[|xs| - 1])
    else
      var r := Last(xs[..|xs| - 1], keyOf, k);
      assert forall i :: 0 <= i < |xs| - 1 ==> xs[..|xs| - 1][i] == xs[i];
      r
  }

  /** `dict((keyOf(x), valueOf(x)) for x in xs)`. */
  function Assoc<T, V>(xs: seq<T>, keyOf: T -> string, valueOf: T -> V): map<string, V>
  {
    if |xs| == 0 then map[]
    else Assoc(xs[..|xs| - 1], keyOf, valueOf)[keyOf(xs[|xs| - 1]) := valueOf(xs[|xs| - 1])]
  }

  /** `d = {}; for page in pages: if page.success: d.update(Assoc(page.data))`. */
  function PagedAssoc<T, V>(pages: seq<Response<T>>, keyOf: T -> string, valueOf: T -> V): map<string, V>
  {
    if |pages| == 0 then map[]
    else
      var d := PagedAssoc(pages[..|pages| - 1], keyOf, valueOf);
      var p := pages[|pages| - 1];
      if p.success then d + Assoc(p.data, keyOf, valueOf) else d
  }

  /** A dict built from pairs holds, for each key, the value of the last pair
      with that key, and holds no other key. */
  lemma {:induction false} AssocIsLast<T, V>(xs: seq<T>, keyOf: T -> string, valueOf: T -> V, k: string)
    ensures k in Assoc(xs, keyOf, valueOf) <==> Last(xs, keyOf, k).Some?
    ensures k in Assoc(xs, keyOf, valueOf) ==>
      Assoc(xs, keyOf, valueOf)[k] == valueOf(Last(xs, keyOf, k).value)
    decreases |xs|
  {
    if |xs| > 0 {
      AssocIsLast(xs[..|xs| - 1], keyOf, valueOf, k);
    }
  }

  /** The last match in a concatenation comes from the second part when it has one. */
  lemma {:induction false} LastOfConcat<T>(a: seq<T>, b: seq<T>, keyOf: T -> string, k: string)
    ensures Last(a + b, keyOf, k) == if Last(b, keyOf, k).Some? then Last(b, keyOf, k) else Last(a, keyOf, k)
    decreases |b|
  {
    if |b| == 0 {
      assert a + b == a;
    } else {
      var b' := b[..|b| - 1];
      assert (a + b)[..|a + b| - 1] == a + b';
      LastOfConcat(a, b', keyOf, k);
    }
  }

  /** Merging successful pages in order yields, for every key, the value of the
      last entry with that key over all successful pages, and nothing else. */
  lemma {:induction false} PagedAssocIsLast<T, V>(pages: seq<Response<T>>, keyOf: T -> string, valueOf: T -> V, k: string)
    ensures k in PagedAssoc(pages, keyOf, valueOf) <==> Last(SuccessfulData(pages), keyOf, k).Some?
    ensures k in PagedAssoc(pages, keyOf, valueOf) ==>
      PagedAssoc(pages, keyOf, valueOf)[k] == valueOf(Last(SuccessfulData(pages), keyOf, k).value)
    decreases |pages|
  {
    if |pages| > 0 {
      var front := pages[..|pages| - 1];
      var p := pages[|pages| - 1];
      PagedAssocIsLast(front, keyOf, valueOf, k);
      if p.success {
        AssocIsLast(p.data, keyOf, valueOf, k);
        LastOfConcat(SuccessfulData(front), p.data, keyOf, k);
      } else {
        assert SuccessfulData(pages) == SuccessfulData(front) + [];
        assert SuccessfulData(front) + [] == SuccessfulData(front);
      }
    }
  }
}
