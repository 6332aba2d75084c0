/** The list handlers' query shaping: filtering by the given fields and offset pagination with
    `skip = (page - 1) * limit`, at most `limit` items, and `totalPages = ceil(total / limit)`. */
module Listing {

  /** The documents of `s` that `keep` accepts, in the order of `s`. */
  function Filter<T>(s: seq<T>, keep: T -> bool): (r: seq<T>)
    ensures |r| <= |s|
    ensures forall x :: x in r ==> x in s && keep(x)
    ensures forall i :: 0 <= i < |s| && keep(s[i]) ==> s[i] in r
  {
    if s == [] then []
    else
      var rest := Filter(s[1..], keep);
      assert forall i :: 1 <= i < |s| ==> s[i] == s[1..][i - 1];
      if keep(s[0]) then [s[0]] + rest else rest
  }

  /** Filtering distributes over concatenation, so the kept documents stay in order. */
  lemma {:induction false} FilterAppend<T>(a: seq<T>, b: seq<T>, keep: T -> bool)
    ensures Filter(a + b, keep) == Filter(a, keep) + Filter(b, keep)
  {
    if a == [] {
      assert a + b == b;
    } else {
      assert (a + b)[1..] == a[1..] + b;
      FilterAppend(a[1..], b, keep);
    }
  }

  /** A filter keeps every accepted document as many times as it occurs, and no other. */
  lemma {:induction false} FilterCounts<T>(s: seq<T>, keep: T -> bool)
    ensures forall x :: multiset(Filter(s, keep))[x] == if keep(x) then multiset(s)[x] else 0
  {
    if s != [] {
      FilterCounts(s[1..], keep);
      assert s == [s[0]] + s[1..];
      assert multiset(s) == multiset{s[0]} + multiset(s[1..]);
    }
  }

  /** A filter that accepts everything keeps everything. */
  lemma {:induction false} FilterAll<T>(s: seq<T>, keep: T -> bool)
    requires forall x :: x in s ==> keep(x)
    ensures Filter(s, keep) == s
  {
    if s != [] {
      FilterAll(s[1..], keep);
    }
  }

  /** A filter that accepts nothing keeps nothing. */
  lemma {:induction false} FilterNone<T>(s: seq<T>, keep: T -> bool)
    requires forall x :: x in s ==> !keep(x)
    ensures Filter(s, keep) == []
  {
    if s != [] {
      FilterNone(s[1..], keep);
    }
  }

  /** `a` is `b` with some elements deleted: the elements of `a` occur in `b` in the same
      order. */
  predicate IsSubsequence<T(==)>(a: seq<T>, b: seq<T>)
    decreases |b|
  {
    if b == [] then a == []
    else (a != [] && a[0] == b[0] && IsSubsequence(a[1..], b[1..])) || IsSubsequence(a, b[1..])
  }

  /** A filter keeps an order-preserving subsequence of its input. */
  lemma {:induction false} FilterSubsequence<T>(s: seq<T>, keep: T -> bool)
    ensures IsSubsequence(Filter(s, keep), s)
  {
    if s != [] {
      FilterSubsequence(s[1..], keep);
      if keep(s[0]) {
        assert Filter(s, keep)[1..] == Filter(s[1..], keep);
      }
    }
  }

  /** Two filters that never accept the same document keep no more documents together than
      there are. */
  lemma {:induction false} FilterDisjoint<T>(s: seq<T>, f: T -> bool, g: T -> bool)
    requires forall x :: x in s ==> !(f(x) && g(x))
    ensures |Filter(s, f)| + |Filter(s, g)| <= |s|
  {
    if s != [] {
      assert forall x :: x in s[1..] ==> x in s;
      FilterDisjoint(s[1..], f, g);
      assert s[0] in s;
    }
  }

  /** `Math.ceil(total / limit)`: the fewest pages of `limit` items that hold `total` items. */
  function CeilDiv(total: nat, limit: nat): (pages: nat)
    requires limit >= 1
    ensures total <= pages * limit
    ensures pages == 0 || (pages - 1) * limit < total
    ensures pages == 0 <==> total == 0
  {
    var q := (total + limit - 1) / limit;
    assert q * limit <= total + limit - 1 < q * limit + limit;
    assert (q - 1) * limit == q * limit - limit;
    q
  }

  function Min(a: int, b: int): int { if a <= b then a else b }

  /** The number of documents on the first `n` pages of `limit` documents, counted one page at
      a time; `OffsetIsProduct` shows it is the handlers' `(page - 1) * limit` for `n = page - 1`. */
  function Offset(n: nat, limit: nat): nat {
    if n == 0 then 0 else Offset(n - 1, limit) + limit
  }

  lemma {:induction false} OffsetIsProduct(n: nat, limit: nat)
    ensures Offset(n, limit) == n * limit
  {
    if n > 0 {
      OffsetIsProduct(n - 1, limit);
    }
  }

  /** `.skip((page - 1) * limit).limit(limit)` applied to the matching documents: at most
      `limit` documents, starting after the first `page - 1` pages; none past the end. */
  function PageOf<T>(items: seq<T>, page: int, limit: int): (r: seq<T>)
    requires page >= 1 && limit >= 1
    ensures |r| <= limit
    ensures Offset(page - 1, limit) >= |items| ==> r == []
    ensures Offset(page - 1, limit) < |items| ==>
      r == items[Offset(page - 1, limit) .. Min(Offset(page - 1, limit) + limit, |items|)]
  {
    var skip := Offset(page - 1, limit);
    var lo := Min(skip, |items|);
    var hi := Min(lo + limit, |items|);
    items[lo..hi]
  }

  /** The list handlers' response body. */
  datatype Listing<T> = Listing(items: seq<T>, totalPages: nat, currentPage: int, total: nat)

  /** The response for page `page` of `matching`, the documents the query selects in the
      database's sort order. */
  function List<T>(matching: seq<T>, page: int, limit: int): (r: Listing<T>)
    requires page >= 1 && limit >= 1
    ensures r.total == |matching| && r.currentPage == page
    ensures |r.items| <= limit
    ensures r.items == PageOf(matching, page, limit)
    ensures r.totalPages == CeilDiv(r.total, limit)
    ensures r.totalPages * limit >= r.total
    ensures r.items != [] <==> page <= r.totalPages
  {
    var pages := CeilDiv(|matching|, limit);
    OffsetIsProduct(page - 1, limit);
    if page <= pages then
      MulMonotone(page - 1, pages - 1, limit);
      Listing(PageOf(matching, page, limit), pages, page, |matching|)
    else
      MulMonotone(pages, page - 1, limit);
      Listing(PageOf(matching, page, limit), pages, page, |matching|)
  }

  lemma MulMonotone(a: int, b: int, c: int)
    requires a <= b && c >= 0
    ensures a * c <= b * c
  {
  }

  /** Pages 1 to n laid end to end. */
  function FirstPages<T>(items: seq<T>, limit: int, n: nat): seq<T>
    requires limit >= 1
  {
    if n == 0 then [] else FirstPages(items, limit, n - 1) + PageOf(items, n, limit)
  }

  lemma {:induction false} FirstPagesPrefix<T>(items: seq<T>, limit: int, n: nat)
    requires limit >= 1
    ensures FirstPages(items, limit, n) == items[..Min(Offset(n, limit), |items|)]
  {
    if n > 0 {
      FirstPagesPrefix(items, limit, n - 1);
      var skip := Offset(n - 1, limit);
      assert Offset(n, limit) == skip + limit;
      var lo := Min(skip, |items|);
      var hi := Min(skip + limit, |items|);
      assert PageOf(items, n, limit) == items[lo..hi];
      assert items[..lo] + items[lo..hi] == items[..hi];
    }
  }

  /** Reading pages 1 to totalPages in turn yields every matching document exactly once, in order. */
  lemma AllPagesCoverAll<T>(items: seq<T>, limit: int)
    requires limit >= 1
    ensures FirstPages(items, limit, CeilDiv(|items|, limit)) == items
  {
    FirstPagesPrefix(items, limit, CeilDiv(|items|, limit));
    OffsetIsProduct(CeilDiv(|items|, limit), limit);
  }
}
