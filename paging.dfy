// Listing helpers shared by the project and job stores: rows are numbered by
// an auto-incremented id assigned when they are inserted, so "newest created
// first" is "largest id first"; OFFSET/LIMIT pagination then takes a window.
module Paging {

  function Min(a: int, b: int): int {
    if a <= b then a else b
  }

  /** OFFSET skip LIMIT limit over an already ordered result. */
  function Page<T>(s: seq<T>, skip: nat, limit: nat): (r: seq<T>)
    ensures |r| == if skip >= |s| then 0 else Min(limit, |s| - skip)
    ensures forall k :: 0 <= k < |r| ==> r[k] == s[skip + k]
  {
    if skip >= |s| then [] else s[skip..skip + Min(limit, |s| - skip)]
  }

  /** The ids of `keys` below n, largest first. */
  function NewestFirst(keys: set<nat>, n: nat): (r: seq<nat>)
    ensures forall i, j :: 0 <= i < j < |r| ==> r[i] > r[j]
    ensures forall k :: 0 <= k < |r| ==> r[k] < n && r[k] in keys
    decreases n
  {
    if n == 0 then []
    else (if n - 1 in keys then [n - 1] else []) + NewestFirst(keys, n - 1)
  }

  /** Exactly the ids of `keys` below n are listed. */
  lemma {:induction false} NewestFirstMembers(keys: set<nat>, n: nat, x: nat)
    ensures x in NewestFirst(keys, n) <==> x in keys && x < n
    decreases n
  {
    if n > 0 {
      NewestFirstMembers(keys, n - 1, x);
    }
  }

  /** The ids of `keys` below n. */
  function Below(keys: set<nat>, n: nat): set<nat> {
    set x | x in keys && x < n
  }

  /** The ids of `keys` newer (larger) than id. */
  function Newer(keys: set<nat>, id: nat): set<nat> {
    set x | x in keys && x > id
  }

  /** The newest-first listing holds each id below n once. */
  lemma {:induction false} NewestFirstCount(keys: set<nat>, n: nat)
    ensures |NewestFirst(keys, n)| == |Below(keys, n)|
    decreases n
  {
    if n > 0 {
      NewestFirstCount(keys, n - 1);
      if n - 1 in keys {
        assert Below(keys, n) == Below(keys, n - 1) + {n - 1};
      } else {
        assert Below(keys, n) == Below(keys, n - 1);
      }
    }
  }

  /** The k-th id of the newest-first listing has exactly k listed ids newer than it. */
  lemma {:induction false} NewestFirstRank(keys: set<nat>, n: nat, k: nat)
    requires k < |NewestFirst(keys, n)|
    ensures |Newer(Below(keys, n), NewestFirst(keys, n)[k])| == k
    decreases n
  {
    var l := NewestFirst(keys, n);
    if n - 1 in keys {
      assert l == [n - 1] + NewestFirst(keys, n - 1);
      if k == 0 {
        assert Newer(Below(keys, n), l[0]) == {};
      } else {
        NewestFirstRank(keys, n - 1, k - 1);
        assert l[k] == NewestFirst(keys, n - 1)[k - 1] < n - 1;
        assert Newer(Below(keys, n), l[k]) == Newer(Below(keys, n - 1), l[k]) + {n - 1};
      }
    } else {
      NewestFirstRank(keys, n - 1, k);
      assert Below(keys, n) == Below(keys, n - 1);
    }
  }

  /** Every position of the newest-first listing is that id's rank among the newer ids. */
  lemma NewestFirstRanks(keys: set<nat>, n: nat)
    ensures forall k :: 0 <= k < |NewestFirst(keys, n)| ==> |Newer(Below(keys, n), NewestFirst(keys, n)[k])| == k
  {
    forall k | 0 <= k < |NewestFirst(keys, n)| ensures |Newer(Below(keys, n), NewestFirst(keys, n)[k])| == k {
      NewestFirstRank(keys, n, k);
    }
  }

  /**
   * The ids on the page OFFSET skip LIMIT limit of `keys` (all below n) listed
   * newest first: as many as the window over |keys| allows, strictly
   * decreasing, and the k-th has exactly skip + k ids of `keys` newer than it.
   */
  function PageIds(keys: set<nat>, n: nat, skip: nat, limit: nat): (r: seq<nat>)
    requires forall x :: x in keys ==> x < n
    ensures |r| == if skip >= |keys| then 0 else Min(limit, |keys| - skip)
    ensures forall i, j :: 0 <= i < j < |r| ==> r[i] > r[j]
    ensures forall k :: 0 <= k < |r| ==> r[k] in keys && |Newer(keys, r[k])| == skip + k
  {
    NewestFirstCount(keys, n);
    NewestFirstRanks(keys, n);
    assert Below(keys, n) == keys;
    Page(NewestFirst(keys, n), skip, limit)
  }

  /** Without an offset and with a limit of at least n, the page lists every id of `keys`. */
  lemma PageIdsAll(keys: set<nat>, n: nat, limit: nat, x: nat)
    requires forall y :: y in keys ==> y < n
    requires limit >= n && x in keys
    ensures x in PageIds(keys, n, 0, limit)
  {
    var ids := NewestFirst(keys, n);
    NewestFirstMembers(keys, n, x);
    DistinctBelow(ids, n);
    assert Page(ids, 0, limit) == ids;
  }

  /** A page never holds anything the full listing does not. */
  lemma PageMembers<T>(s: seq<T>, skip: nat, limit: nat, x: T)
    ensures x in Page(s, skip, limit) ==> x in s
  {
    if x in Page(s, skip, limit) {
      var r := Page(s, skip, limit);
      var k :| 0 <= k < |r| && r[k] == x;
      assert s[skip + k] == x;
    }
  }

  /** Without an offset and with a large enough limit the page is the whole listing. */
  lemma PageAll<T>(s: seq<T>, limit: nat)
    requires limit >= |s|
    ensures Page(s, 0, limit) == s
  {
  }

  /** A strictly decreasing list of ids below n has at most n entries. */
  lemma {:induction false} DistinctBelow(ids: seq<nat>, n: nat)
    requires forall i, j :: 0 <= i < j < |ids| ==> ids[i] > ids[j]
    requires forall k :: 0 <= k < |ids| ==> ids[k] < n
    ensures |ids| <= n
    decreases n
  {
    if ids != [] {
      assert ids[0] < n;
      forall k | 1 <= k < |ids| ensures ids[k] < ids[0] {
      }
      DistinctBelow(ids[1..], ids[0]);
    }
  }
}
