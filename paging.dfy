/** The skip/limit pagination and the newest-first ordering shared by the
    product and order listings. */
module Paging {
  import opened Common

  /** Math.ceil(total / limit): the number of pages of `limit` entries needed to
      hold `total` entries. */
  function PageCount(total: nat, limit: Positive): (pages: nat)
    ensures pages * limit >= total
    ensures pages == 0 || (pages - 1) * limit < total
    ensures pages == 0 <==> total == 0
  {
    var q := (total + limit - 1) / limit;
    CeilBounds(total, limit, q);
    q
  }

  lemma CeilBounds(total: nat, limit: Positive, q: int)
    requires q == (total + limit - 1) / limit
    ensures q >= 0 && q * limit >= total && (q == 0 || (q - 1) * limit < total)
    ensures q == 0 <==> total == 0
  {
    var r := (total + limit - 1) % limit;
    assert total + limit - 1 == q * limit + r;
    assert 0 <= r < limit;
  }

  /** The number of entries the database skips for a 1-based page. */
  function Skip(page: Positive, limit: Positive): nat {
    (page - 1) * limit
  }

  /** `.skip(skip).limit(limit)` over an ordered result: at most `limit`
      entries, starting at position `skip`; empty past the end. */
  function Window<T>(s: seq<T>, skip: nat, limit: nat): (r: seq<T>)
    ensures |r| <= limit
    ensures |r| == if skip >= |s| then 0 else Min(limit, |s| - skip)
    ensures forall i :: 0 <= i < |r| ==> r[i] == s[skip + i]
  {
    if skip >= |s| then [] else s[skip..Min(|s|, skip + limit)]
  }

  /** The `pagination` object of a listing response. */
  datatype Pagination = Pagination(page: int, limit: int, total: nat, pages: nat)

  function Paginate(total: nat, page: Positive, limit: Positive): (p: Pagination)
    ensures p.page == page && p.limit == limit && p.total == total
    ensures p.pages * limit >= total && (p.pages == 0 || (p.pages - 1) * limit < total)
  {
    Pagination(page, limit, total, PageCount(total, limit))
  }

  /** Asking for a page after the last one gives an empty list, not an error. */
  lemma PageBeyondLastIsEmpty<T>(s: seq<T>, page: Positive, limit: Positive)
    requires page > PageCount(|s|, limit)
    ensures Window(s, Skip(page, limit), limit) == []
  {
    var pages := PageCount(|s|, limit);
    assert page - 1 >= pages;
    MulMonotone(pages, page - 1, limit);
  }

  lemma MulMonotone(a: nat, b: nat, c: nat)
    requires a <= b
    ensures a * c <= b * c
  {
  }

  /** The page that holds position `i` and the offset of `i` within it. */
  lemma PageOfPosition(i: nat, limit: Positive)
    ensures Skip(i / limit + 1, limit) <= i < Skip(i / limit + 1, limit) + limit
  {
    assert i == (i / limit) * limit + i % limit;
  }

  /** Every entry of an ordered result appears on exactly one page: the page
      `i / limit + 1`, which is among the `PageCount` pages. */
  lemma {:induction false} EveryEntryOnOnePage<T>(s: seq<T>, limit: Positive, i: nat, page: Positive)
    requires i < |s|
    ensures var home := i / limit + 1;
      && home <= PageCount(|s|, limit)
      && Window(s, Skip(home, limit), limit)[i - Skip(home, limit)] == s[i]
    ensures (Skip(page, limit) <= i < Skip(page, limit) + limit) <==> page == i / limit + 1
  {
    var home := i / limit + 1;
    PageOfPosition(i, limit);
    var pages := PageCount(|s|, limit);
    if home > pages {
      MulMonotone(pages, home - 1, limit);
      assert false;
    }
    if page < home {
      MulMonotone(page, home - 1, limit);
      assert Skip(page, limit) + limit == page * limit;
    } else if page > home {
      MulMonotone(home, page - 1, limit);
      assert Skip(home, limit) + limit == home * limit;
    }
  }

  /** Every member of a listed set is on some page among the first
      `PageCount` pages of its newest-first order. */
  lemma EveryMemberListed<T(!new)>(s: set<T>, key: T -> int, limit: Positive, x: T)
    requires x in s
    ensures exists page: Positive ::
      (page <= PageCount(|s|, limit) && x in Window(NewestFirst(s, key), Skip(page, limit), limit))
  {
    var page := MemberPage(s, key, limit, x);
  }

  /** The page of a newest-first listing that `x` is on. */
  lemma MemberPage<T(!new)>(s: set<T>, key: T -> int, limit: Positive, x: T) returns (page: Positive)
    requires x in s
    ensures page <= PageCount(|s|, limit) && x in Window(NewestFirst(s, key), Skip(page, limit), limit)
  {
    var ordered := NewestFirst(s, key);
    assert x in ordered && |ordered| == |s|;
    var i :| 0 <= i < |ordered| && ordered[i] == x;
    page := OnHomePage(ordered, limit, i);
  }

  /** The entry at position `i` is on its home page, among the first
      `PageCount` pages. */
  lemma OnHomePage<T>(s: seq<T>, limit: Positive, i: nat) returns (home: Positive)
    requires i < |s|
    ensures home == i / limit + 1
    ensures home <= PageCount(|s|, limit) && s[i] in Window(s, Skip(home, limit), limit)
  {
    home := i / limit + 1;
    EveryEntryOnOnePage(s, limit, i, home);
    var w := Window(s, Skip(home, limit), limit);
    assert w[i - Skip(home, limit)] == s[i];
  }

  /** A window of a sequence ordered strictly by a key keeps that order. */
  lemma WindowKeepsOrder<T>(s: seq<T>, skip: nat, limit: nat, key: T -> int)
    requires forall i, j :: 0 <= i < j < |s| ==> key(s[i]) > key(s[j])
    ensures var w := Window(s, skip, limit);
      forall i, j :: 0 <= i < j < |w| ==> key(w[i]) > key(w[j])
  {
    var w := Window(s, skip, limit);
    forall i, j | 0 <= i < j < |w|
      ensures key(w[i]) > key(w[j])
    {
      assert w[i] == s[skip + i] && w[j] == s[skip + j];
    }
  }

  /** A largest element of a finite non-empty set under an integer key. */
  lemma MaxExists<T(!new)>(s: set<T>, key: T -> int)
    requires s != {}
    ensures exists m :: m in s && forall y :: y in s ==> key(y) <= key(m)
  {
    var m := MaxOf(s, key);
  }

  /** One largest element of a finite non-empty set under an integer key. */
  lemma {:induction false} MaxOf<T(!new)>(s: set<T>, key: T -> int) returns (m: T)
    requires s != {}
    ensures m in s && forall y :: y in s ==> key(y) <= key(m)
    decreases |s|
  {
    var x :| x in s;
    if s == {x} {
      m := x;
    } else {
      m := MaxOf(s - {x}, key);
      if key(x) > key(m) {
        m := x;
      }
    }
  }

  /** `.sort({ createdAt: -1 })`: the elements of `s`, each once, largest key first. */
  ghost function NewestFirst<T(!new)>(s: set<T>, key: T -> int): (r: seq<T>)
    ensures |r| == |s|
    ensures forall x :: x in r <==> x in s
    ensures forall i, j :: 0 <= i < j < |r| ==> r[i] != r[j]
    ensures forall i, j :: 0 <= i < j < |r| ==> key(r[i]) >= key(r[j])
    decreases |s|
  {
    if s == {} then []
    else
      MaxExists(s, key);
      var m :| m in s && forall y :: y in s ==> key(y) <= key(m);
      var rest := NewestFirst(s - {m}, key);
      assert forall j :: 0 <= j < |rest| ==> rest[j] in s - {m};
      PrependLargest(m, rest, key);
      [m] + rest
  }

  /** An element not in a duplicate-free, key-descending sequence and with a
      key at least each of its keys can go in front. */
  lemma PrependLargest<T>(m: T, rest: seq<T>, key: T -> int)
    requires forall j :: 0 <= j < |rest| ==> rest[j] != m && key(rest[j]) <= key(m)
    requires forall i, j :: 0 <= i < j < |rest| ==> rest[i] != rest[j]
    requires forall i, j :: 0 <= i < j < |rest| ==> key(rest[i]) >= key(rest[j])
    ensures var r := [m] + rest;
      && (forall i, j :: 0 <= i < j < |r| ==> r[i] != r[j])
      && (forall i, j :: 0 <= i < j < |r| ==> key(r[i]) >= key(r[j]))
  {
    var r := [m] + rest;
    forall i, j | 0 <= i < j < |r|
      ensures r[i] != r[j] && key(r[i]) >= key(r[j])
    {
      assert r[j] == rest[j - 1];
      if i > 0 {
        assert r[i] == rest[i - 1];
      }
    }
  }

  /** With distinct keys (as creation indices are) the order is strict. */
  lemma NewestFirstStrict<T(!new)>(s: set<T>, key: T -> int)
    requires forall x, y :: x in s && y in s && x != y ==> key(x) != key(y)
    ensures var r := NewestFirst(s, key);
      forall i, j :: 0 <= i < j < |r| ==> key(r[i]) > key(r[j])
  {
    var r := NewestFirst(s, key);
    forall i, j | 0 <= i < j < |r|
      ensures key(r[i]) > key(r[j])
    {
      assert r[i] in s && r[j] in s && r[i] != r[j];
    }
  }

  /** A page of a newest-first listing holds members of the listed set only. */
  lemma NewestFirstPageMembers<T(!new)>(s: set<T>, key: T -> int, skip: nat, limit: nat)
    ensures var w := Window(NewestFirst(s, key), skip, limit);
      forall i :: 0 <= i < |w| ==> w[i] in s
  {
    var ordered := NewestFirst(s, key);
    var w := Window(ordered, skip, limit);
    forall i | 0 <= i < |w|
      ensures w[i] in s
    {
      assert w[i] == ordered[skip + i];
    }
  }

  /** Over distinct keys, a page of a newest-first listing is in strictly
      decreasing key order. */
  lemma NewestFirstPageOrder<T(!new)>(s: set<T>, key: T -> int, skip: nat, limit: nat)
    requires forall x, y :: x in s && y in s && x != y ==> key(x) != key(y)
    ensures var w := Window(NewestFirst(s, key), skip, limit);
      forall i, j :: 0 <= i < j < |w| ==> key(w[i]) > key(w[j])
  {
    NewestFirstStrict(s, key);
    WindowKeepsOrder(NewestFirst(s, key), skip, limit, key);
  }
}
