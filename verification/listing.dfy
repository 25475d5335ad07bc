/**
 * The list endpoints' shared shape (app/api/admin/invites/route.ts and
 * app/api/admin/responses/route.ts): list the keys, fetch each record,
 * drop the ones that are missing or whose fetch throws, and sort the rest
 * newest first with JavaScript's stable `Array.prototype.sort`.
 */
module RecordLists {
  import opened Stores

  /** Newest first: creation times never increase along the list. */
  predicate NewestFirst<T>(s: seq<T>, createdAt: T -> int) {
    forall i, j :: 0 <= i < j < |s| ==> createdAt(s[i]) >= createdAt(s[j])
  }

  /** `x` placed before the first element that is not newer than it, so equal times keep their order. */
  function Insert<T>(x: T, s: seq<T>, createdAt: T -> int): (r: seq<T>)
    ensures multiset(r) == multiset(s) + multiset{x}
    ensures |r| == |s| + 1
  {
    if s == [] || createdAt(s[0]) <= createdAt(x) then [x] + s
    else
      assert s == [s[0]] + s[1..];
      [s[0]] + Insert(x, s[1..], createdAt)
  }

  /** The comparator `b.created_at - a.created_at`, as a stable insertion sort. */
  function SortNewestFirst<T>(xs: seq<T>, createdAt: T -> int): (r: seq<T>)
    ensures |r| == |xs|
  {
    if xs == [] then [] else Insert(xs[0], SortNewestFirst(xs[1..], createdAt), createdAt)
  }

  lemma {:induction false} InsertKeepsOrder<T>(x: T, s: seq<T>, createdAt: T -> int)
    requires NewestFirst(s, createdAt)
    ensures NewestFirst(Insert(x, s, createdAt), createdAt)
  {
    if s != [] && createdAt(s[0]) > createdAt(x) {
      InsertKeepsOrder(x, s[1..], createdAt);
      var r := Insert(x, s[1..], createdAt);
      assert multiset(r) == multiset(s[1..]) + multiset{x};
      forall j | 0 <= j < |r|
        ensures createdAt(s[0]) >= createdAt(r[j])
      {
        assert r[j] in multiset(r);
        if r[j] in multiset(s[1..]) {
          var k :| 0 <= k < |s[1..]| && s[1..][k] == r[j];
          assert s[1..][k] == s[k + 1];
        }
      }
    }
  }

  /** The sort's result is newest first and holds exactly the records it was given. */
  lemma SortNewestFirstCorrect<T>(xs: seq<T>, createdAt: T -> int)
    ensures NewestFirst(SortNewestFirst(xs, createdAt), createdAt)
    ensures multiset(SortNewestFirst(xs, createdAt)) == multiset(xs)
  {
    SortIsNewestFirst(xs, createdAt);
    SortKeepsRecords(xs, createdAt);
  }

  lemma {:induction false} SortIsNewestFirst<T>(xs: seq<T>, createdAt: T -> int)
    ensures NewestFirst(SortNewestFirst(xs, createdAt), createdAt)
  {
    if xs != [] {
      SortIsNewestFirst(xs[1..], createdAt);
      InsertKeepsOrder(xs[0], SortNewestFirst(xs[1..], createdAt), createdAt);
    }
  }

  lemma {:induction false} SortKeepsRecords<T>(xs: seq<T>, createdAt: T -> int)
    ensures multiset(SortNewestFirst(xs, createdAt)) == multiset(xs)
  {
    if xs != [] {
      SortKeepsRecords(xs[1..], createdAt);
      assert xs == [xs[0]] + xs[1..];
    }
  }

  /** Each key's record, skipping keys with no record and keys whose fetch throws, in key order. */
  function Fetched<T>(store: map<string, T>, keys: seq<string>, fetchFails: set<string>): (rs: seq<T>)
    ensures |rs| <= |keys|
  {
    if keys == [] then []
    else
      var k := keys[|keys| - 1];
      Fetched(store, keys[..|keys| - 1], fetchFails) + (if k in store && k !in fetchFails then [store[k]] else [])
  }

  /** A record is fetched exactly when one of the keys that did not fail holds it. */
  lemma {:induction false} FetchedMembers<T>(store: map<string, T>, keys: seq<string>, fetchFails: set<string>, x: T)
    ensures x in Fetched(store, keys, fetchFails)
       <==> exists i :: 0 <= i < |keys| && keys[i] in store && keys[i] !in fetchFails && store[keys[i]] == x
  {
    if keys != [] {
      var n := |keys| - 1;
      var init := keys[..n];
      FetchedMembers(store, init, fetchFails, x);
      if exists i :: 0 <= i < |init| && init[i] in store && init[i] !in fetchFails && store[init[i]] == x {
        var i :| 0 <= i < |init| && init[i] in store && init[i] !in fetchFails && store[init[i]] == x;
        assert keys[i] == init[i];
      }
      if exists i :: 0 <= i < |keys| && keys[i] in store && keys[i] !in fetchFails && store[keys[i]] == x {
        var i :| 0 <= i < |keys| && keys[i] in store && keys[i] !in fetchFails && store[keys[i]] == x;
        if i < n {
          assert init[i] == keys[i];
        }
      }
    }
  }

  /** A list endpoint's answer: the records, or a 500 with the error and its details. */
  datatype ListReply<T> = Records(items: seq<T>) | ServerError(error: string, details: string)

  /** `GET`: nothing listed gives an empty list; a throwing listing gives a 500. */
  function ListRecords<T>(store: map<string, T>, list: Listing, fetchFails: set<string>, createdAt: T -> int,
                          failure: string): (reply: ListReply<T>)
    ensures list.ListFailed? <==> reply.ServerError?
    ensures list == Listed([]) ==> reply == Records([])
  {
    match list
    case ListFailed(m) => ServerError(failure, m)
    case Listed(keys) =>
      if keys == [] then Records([]) else Records(SortNewestFirst(Fetched(store, keys, fetchFails), createdAt))
  }

  /**
   * What a successful listing returns: newest first, exactly the records that
   * some non-failing key holds, each as many times as it was fetched.
   */
  lemma ListedRecords<T>(store: map<string, T>, keys: seq<string>, fetchFails: set<string>, createdAt: T -> int,
                         failure: string, x: T)
    ensures var reply := ListRecords(store, Listed(keys), fetchFails, createdAt, failure);
      && reply.Records?
      && NewestFirst(reply.items, createdAt)
      && multiset(reply.items) == multiset(Fetched(store, keys, fetchFails))
      && (x in reply.items <==>
            exists i :: 0 <= i < |keys| && keys[i] in store && keys[i] !in fetchFails && store[keys[i]] == x)
  {
    var fetched := Fetched(store, keys, fetchFails);
    SortNewestFirstCorrect(fetched, createdAt);
    FetchedMembers(store, keys, fetchFails, x);
    var sorted := SortNewestFirst(fetched, createdAt);
    assert x in sorted <==> x in multiset(sorted);
    assert x in fetched <==> x in multiset(fetched);
  }
}
