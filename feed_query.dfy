/** The read side of the activity store: the query the GET route builds
    (tenant, optional type, optional exclusive `createdAt` upper bound), the
    store's find / sort newest first / limit, and one page of the cursor
    protocol with its one-record "has more" probe. The store is the sequence of
    saved records in insertion order. */
module FeedQuery {
  import opened Wrappers
  import opened ActivityModel

  /** `{ tenantId, type?, createdAt: { $lt: before }? }`. */
  datatype Query = Query(tenantId: string, kind: Option<string>, before: Option<int>)

  predicate Matches(q: Query, a: Activity) {
    && a.tenantId == q.tenantId
    && (q.kind.Some? ==> a.kind == q.kind.value)
    && (q.before.Some? ==> a.createdAt < q.before.value)
  }

  /** `q2` asks for the same tenant and type as `q1` and a bound no later. */
  predicate Narrower(q2: Query, q1: Query) {
    && q2.tenantId == q1.tenantId
    && q2.kind == q1.kind
    && (q1.before.Some? ==> q2.before.Some? && q2.before.value <= q1.before.value)
  }

  // ---------------------------------------------------------------------
  // find, sort, limit

  /** `find(query)`: the matching records, in store order. */
  function Select(s: seq<Activity>, q: Query): (r: seq<Activity>)
    ensures |r| <= |s|
  {
    if s == [] then []
    else (if Matches(q, s[0]) then [s[0]] else []) + Select(s[1..], q)
  }

  /** `find` returns exactly the matching records of the store. */
  lemma {:induction false} SelectMembers(s: seq<Activity>, q: Query)
    ensures forall a :: a in Select(s, q) <==> a in s && Matches(q, a)
  {
    if s != [] {
      SelectMembers(s[1..], q);
      assert s == [s[0]] + s[1..];
    }
  }

  /** Non-increasing `createdAt`, the order of `sort({ createdAt: -1 })`. */
  predicate NewestFirst(s: seq<Activity>) {
    forall i, j :: 0 <= i < j < |s| ==> s[i].createdAt >= s[j].createdAt
  }

  /** Strictly decreasing `createdAt`. */
  predicate StrictlyNewestFirst(s: seq<Activity>) {
    forall i, j :: 0 <= i < j < |s| ==> s[i].createdAt > s[j].createdAt
  }

  /** No two records share a timestamp. */
  predicate DistinctTimes(s: seq<Activity>) {
    forall i, j :: 0 <= i < j < |s| ==> s[i].createdAt != s[j].createdAt
  }

  /** No record of `s` is newer than `x`. */
  predicate NoneNewer(x: Activity, s: seq<Activity>) {
    forall a :: a in s ==> a.createdAt <= x.createdAt
  }

  lemma NewestFirstCons(x: Activity, s: seq<Activity>)
    ensures NewestFirst([x] + s) <==> NewestFirst(s) && NoneNewer(x, s)
  {
    var t := [x] + s;
    if NewestFirst(s) && NoneNewer(x, s) {
      forall i, j | 0 <= i < j < |t| ensures t[i].createdAt >= t[j].createdAt {
        if i > 0 {
          assert t[i] == s[i - 1] && t[j] == s[j - 1];
        } else {
          assert t[j] == s[j - 1];
        }
      }
    }
    if NewestFirst(t) {
      forall i, j | 0 <= i < j < |s| ensures s[i].createdAt >= s[j].createdAt {
        assert s[i] == t[i + 1] && s[j] == t[j + 1];
      }
      forall a | a in s ensures a.createdAt <= x.createdAt {
        var k :| 0 <= k < |s| && s[k] == a;
        assert t[0] == x && t[k + 1] == a;
      }
    }
  }

  /** Selecting keeps the order of what it selects from. */
  lemma {:induction false} SelectNewestFirst(s: seq<Activity>, q: Query)
    requires NewestFirst(s)
    ensures NewestFirst(Select(s, q))
  {
    if s != [] {
      NewestFirstCons(s[0], s[1..]);
      assert s == [s[0]] + s[1..];
      SelectNewestFirst(s[1..], q);
      SelectMembers(s[1..], q);
      NewestFirstCons(s[0], Select(s[1..], q));
    }
  }

  /** Places `x` before the first record strictly older than it. */
  function Insert(x: Activity, s: seq<Activity>): (r: seq<Activity>)
    ensures |r| == |s| + 1
  {
    if s == [] || x.createdAt >= s[0].createdAt then [x] + s
    else [s[0]] + Insert(x, s[1..])
  }

  lemma {:induction false} InsertMembers(x: Activity, s: seq<Activity>)
    ensures multiset(Insert(x, s)) == multiset(s) + multiset{x}
    ensures forall a :: a in Insert(x, s) <==> a == x || a in s
  {
    if s != [] && x.createdAt < s[0].createdAt {
      InsertMembers(x, s[1..]);
      assert s == [s[0]] + s[1..];
    }
  }

  lemma {:induction false} InsertSorted(x: Activity, s: seq<Activity>)
    requires NewestFirst(s)
    ensures NewestFirst(Insert(x, s))
  {
    if s != [] {
      NewestFirstCons(s[0], s[1..]);
      assert s == [s[0]] + s[1..];
      if x.createdAt >= s[0].createdAt {
        NewestFirstCons(x, s);
      } else {
        InsertSorted(x, s[1..]);
        InsertMembers(x, s[1..]);
        NewestFirstCons(s[0], Insert(x, s[1..]));
      }
    }
  }

  /** The store's descending sort on `createdAt`: the result is newest first
      and holds the same records. Records with equal timestamps keep their
      store order. */
  function SortNewestFirst(s: seq<Activity>): (r: seq<Activity>)
    ensures NewestFirst(r)
    ensures multiset(r) == multiset(s)
  {
    if s == [] then []
    else
      var t := SortNewestFirst(s[1..]);
      InsertSorted(s[0], t);
      InsertMembers(s[0], t);
      assert s == [s[0]] + s[1..];
      Insert(s[0], t)
  }

  lemma SortMembers(s: seq<Activity>)
    ensures forall a :: a in SortNewestFirst(s) <==> a in s
  {
    var r := SortNewestFirst(s);
    forall a ensures a in r <==> a in s {
      assert a in r <==> a in multiset(r);
      assert a in s <==> a in multiset(s);
    }
  }

  /** Every record of the store that matches the query, newest first. */
  function Matching(store: seq<Activity>, q: Query): seq<Activity> {
    SortNewestFirst(Select(store, q))
  }

  lemma MatchingMembers(store: seq<Activity>, q: Query)
    ensures forall a :: a in Matching(store, q) <==> a in store && Matches(q, a)
  {
    SortMembers(Select(store, q));
    SelectMembers(store, q);
  }

  // ---------------------------------------------------------------------
  // One page

  /** The page the GET route answers with: the records, the cursor for the
      next request (the `createdAt` of the last record) and `hasMore`. */
  datatype Page = Page(data: seq<Activity>, nextCursor: Option<int>, hasMore: bool)

  /** One page of the query's records, newest first. */
  function FetchPage(store: seq<Activity>, q: Query, limit: nat): (p: Page)
    requires limit >= 1
    ensures p.hasMore <==> |Matching(store, q)| > limit
    ensures |p.data| == if |Matching(store, q)| > limit then limit else |Matching(store, q)|
    ensures p.data == Matching(store, q)[..|p.data|]
    ensures p.nextCursor == if p.data == [] then None else Some(p.data[|p.data| - 1].createdAt)
  {
    ProbePage(Matching(store, q), limit)
  }

  /** The page built from the sorted results: take `limit + 1` of them
      (`.limit`), report more when the extra one came back, and drop it. */
  function ProbePage(all: seq<Activity>, limit: nat): (p: Page)
    requires limit >= 1
    ensures p.hasMore <==> |all| > limit
    ensures |p.data| == if |all| > limit then limit else |all|
    ensures p.data == all[..|p.data|]
    ensures p.nextCursor == if p.data == [] then None else Some(p.data[|p.data| - 1].createdAt)
  {
    var fetched := if |all| <= limit + 1 then all else all[..limit + 1];
    assert fetched == all[..|fetched|];
    var hasMore := |fetched| > limit;
    var results := if hasMore then fetched[..limit] else fetched;
    assert results == all[..|results|];
    var nextCursor := if |results| > 0 then Some(results[|results| - 1].createdAt) else None;
    Page(results, nextCursor, hasMore)
  }

  /** Every record on a page belongs to the query's tenant, has the
      requested type, is older than the cursor, and the page is newest
      first. */
  lemma PageRecordsMatch(store: seq<Activity>, q: Query, limit: nat)
    requires limit >= 1
    ensures forall a :: a in FetchPage(store, q, limit).data ==> a in store && Matches(q, a)
    ensures NewestFirst(FetchPage(store, q, limit).data)
  {
    var p := FetchPage(store, q, limit);
    var all := Matching(store, q);
    MatchingMembers(store, q);
    assert forall a :: a in p.data ==> a in all;
    var n := |p.data|;
    forall i, j | 0 <= i < j < n ensures p.data[i].createdAt >= p.data[j].createdAt {
      assert p.data[i] == all[i] && p.data[j] == all[j];
    }
  }

  // ---------------------------------------------------------------------
  // Tenant isolation

  lemma {:induction false} SelectAppend(a: seq<Activity>, b: seq<Activity>, q: Query)
    ensures Select(a + b, q) == Select(a, q) + Select(b, q)
  {
    if a == [] {
      assert a + b == b;
    } else {
      var head := if Matches(q, a[0]) then [a[0]] else [];
      assert (a + b)[0] == a[0];
      assert (a + b)[1..] == a[1..] + b;
      assert Select(a + b, q) == head + Select(a[1..] + b, q);
      SelectAppend(a[1..], b, q);
    }
  }

  lemma SelectSingleton(a: Activity, q: Query)
    ensures Select([a], q) == if Matches(q, a) then [a] else []
  {
    assert [a][1..] == [];
  }

  lemma {:induction false} SelectSelect(s: seq<Activity>, q1: Query, q2: Query)
    requires Narrower(q2, q1)
    ensures Select(Select(s, q1), q2) == Select(s, q2)
  {
    if s != [] {
      SelectSelect(s[1..], q1, q2);
      SelectSingleton(s[0], q2);
      SelectAppend(if Matches(q1, s[0]) then [s[0]] else [], Select(s[1..], q1), q2);
    }
  }

  lemma {:induction false} SelectOwnTenant(s: seq<Activity>, q: Query)
    ensures Select(Select(s, Query(q.tenantId, None, None)), q) == Select(s, q)
  {
    if s != [] {
      var own := Query(q.tenantId, None, None);
      SelectOwnTenant(s[1..], q);
      SelectSingleton(s[0], q);
      SelectAppend(if Matches(own, s[0]) then [s[0]] else [], Select(s[1..], own), q);
    }
  }

  /** The records of other tenants have no influence on a page: answering
      from the tenant's own records alone gives the same page. */
  lemma OtherTenantsInvisible(store: seq<Activity>, q: Query, limit: nat)
    requires limit >= 1
    ensures FetchPage(store, q, limit)
         == FetchPage(Select(store, Query(q.tenantId, None, None)), q, limit)
  {
    var own := Select(store, Query(q.tenantId, None, None));
    SelectOwnTenant(store, q);
    assert Matching(store, q) == Matching(own, q);
    SamePageForSameMatches(store, own, q, limit);
  }

  /** A page depends on the store only through the sorted matches. */
  lemma SamePageForSameMatches(s1: seq<Activity>, s2: seq<Activity>, q: Query, limit: nat)
    requires limit >= 1
    requires Matching(s1, q) == Matching(s2, q)
    ensures FetchPage(s1, q, limit) == FetchPage(s2, q, limit)
  {
    var p1 := FetchPage(s1, q, limit);
    var p2 := FetchPage(s2, q, limit);
    assert p1.data == p2.data;
  }

  /** Writing a record under another tenant never changes a page. */
  lemma OtherTenantWriteInvisible(store: seq<Activity>, a: Activity, q: Query, limit: nat)
    requires limit >= 1
    requires a.tenantId != q.tenantId
    ensures FetchPage(store + [a], q, limit) == FetchPage(store, q, limit)
  {
    SelectAppend(store, [a], q);
    SelectSingleton(a, q);
    assert Select(store + [a], q) == Select(store, q);
  }

  // ---------------------------------------------------------------------
  // Following the cursor

  /** Every page from `cursor` on, concatenated: fetch a page, and while it
      reports more, ask again from its `nextCursor`. */
  function Crawl(store: seq<Activity>, tenantId: string, kind: Option<string>, limit: nat,
                 cursor: Option<int>): seq<Activity>
    requires limit >= 1
    decreases |Select(store, Query(tenantId, kind, cursor))|
  {
    var q := Query(tenantId, kind, cursor);
    var p := FetchPage(store, q, limit);
    if !p.hasMore then p.data
    else
      CursorAdvances(store, q, limit);
      p.data + Crawl(store, tenantId, kind, limit, p.nextCursor)
  }

  /** A page that reports more has a cursor, and asking from it leaves
      strictly fewer matching records. */
  lemma CursorAdvances(store: seq<Activity>, q: Query, limit: nat)
    requires limit >= 1
    requires FetchPage(store, q, limit).hasMore
    ensures FetchPage(store, q, limit).nextCursor.Some?
    ensures Narrower(Query(q.tenantId, q.kind, FetchPage(store, q, limit).nextCursor), q)
    ensures |Select(store, Query(q.tenantId, q.kind, FetchPage(store, q, limit).nextCursor))|
          < |Select(store, q)|
  {
    var p := FetchPage(store, q, limit);
    var last := LastOfFullPage(store, q, limit);
    var q2 := Query(q.tenantId, q.kind, p.nextCursor);
    assert !Matches(q2, last);
    SelectSelect(store, q, q2);
    SelectDropsWitness(Select(store, q), q2, last);
  }

  /** A page that reports more is full, and its last record, whose time is
      the cursor, is one of the query's records. */
  lemma LastOfFullPage(store: seq<Activity>, q: Query, limit: nat) returns (last: Activity)
    requires limit >= 1
    requires FetchPage(store, q, limit).hasMore
    ensures last in Select(store, q) && Matches(q, last)
    ensures |Matching(store, q)| > limit && last == Matching(store, q)[limit - 1]
    ensures FetchPage(store, q, limit).nextCursor == Some(last.createdAt)
  {
    var p := FetchPage(store, q, limit);
    last := p.data[limit - 1];
    assert last in Matching(store, q) by {
      assert last == Matching(store, q)[limit - 1];
    }
    SortMembers(Select(store, q));
    SelectMembers(store, q);
  }

  lemma {:induction false} SelectDropsWitness(s: seq<Activity>, q: Query, w: Activity)
    requires w in s && !Matches(q, w)
    ensures |Select(s, q)| < |s|
  {
    if s[0] != w {
      SelectDropsWitness(s[1..], q, w);
    }
  }

  lemma {:induction false} SelectAll(s: seq<Activity>, q: Query)
    requires forall i :: 0 <= i < |s| ==> Matches(q, s[i])
    ensures Select(s, q) == s
  {
    if s != [] {
      SelectAll(s[1..], q);
    }
  }

  lemma {:induction false} SelectNone(s: seq<Activity>, q: Query)
    requires forall i :: 0 <= i < |s| ==> !Matches(q, s[i])
    ensures Select(s, q) == []
  {
    if s != [] {
      SelectNone(s[1..], q);
    }
  }

  lemma {:induction false} InsertSelect(x: Activity, s: seq<Activity>, q: Query)
    requires NewestFirst(s)
    ensures Select(Insert(x, s), q)
         == if Matches(q, x) then Insert(x, Select(s, q)) else Select(s, q)
  {
    if s == [] {
      SelectSingleton(x, q);
    } else if x.createdAt >= s[0].createdAt {
      InsertSelectFront(x, s, q);
    } else {
      NewestFirstCons(s[0], s[1..]);
      assert s == [s[0]] + s[1..];
      InsertSelect(x, s[1..], q);
      InsertSelectBehind(x, s[0], s[1..], q);
    }
  }

  lemma InsertSelectFront(x: Activity, s: seq<Activity>, q: Query)
    requires NewestFirst(s)
    requires s != [] && x.createdAt >= s[0].createdAt
    ensures Select(Insert(x, s), q)
         == if Matches(q, x) then Insert(x, Select(s, q)) else Select(s, q)
  {
    assert Insert(x, s) == [x] + s;
    SelectSingleton(x, q);
    SelectAppend([x], s, q);
    var t := Select(s, q);
    if Matches(q, x) && t != [] {
      SelectMembers(s, q);
      assert t[0] in s;
      var k :| 0 <= k < |s| && s[k] == t[0];
      assert s[0].createdAt >= s[k].createdAt;
      assert Insert(x, t) == [x] + t;
    }
  }

  lemma InsertSelectBehind(x: Activity, y: Activity, t: seq<Activity>, q: Query)
    requires x.createdAt < y.createdAt
    requires Select(Insert(x, t), q)
          == if Matches(q, x) then Insert(x, Select(t, q)) else Select(t, q)
    ensures Select(Insert(x, [y] + t), q)
         == if Matches(q, x) then Insert(x, Select([y] + t, q)) else Select([y] + t, q)
  {
    var s := [y] + t;
    assert s[0] == y && s[1..] == t;
    var rest := Insert(x, t);
    var st := Select(t, q);
    var h := if Matches(q, y) then [y] else [];
    assert Insert(x, s) == [y] + rest;
    SelectSingleton(y, q);
    SelectAppend([y], rest, q);
    assert Select(Insert(x, s), q) == h + Select(rest, q);
    SelectAppend([y], t, q);
    assert Select(s, q) == h + st;
    if !Matches(q, x) {
      assert Select(rest, q) == st;
    } else if Matches(q, y) {
      var u := [y] + st;
      assert u[0] == y && u[1..] == st;
      assert Insert(x, u) == [y] + Insert(x, st);
    } else {
      assert Select(s, q) == st;
    }
  }

  /** Filtering a sorted sequence equals sorting the filtered one. */
  lemma {:induction false} SelectSort(s: seq<Activity>, q: Query)
    ensures Select(SortNewestFirst(s), q) == SortNewestFirst(Select(s, q))
  {
    if s != [] {
      var t := s[1..];
      assert s == [s[0]] + t;
      SelectSort(t, q);
      InsertSelect(s[0], SortNewestFirst(t), q);
      SelectSingleton(s[0], q);
      SelectAppend([s[0]], t, q);
      if Matches(q, s[0]) {
        var u := [s[0]] + Select(t, q);
        assert Select(s, q) == u;
        assert u[0] == s[0] && u[1..] == Select(t, q);
      } else {
        assert Select(s, q) == Select(t, q);
      }
    }
  }

  /** Under strictly decreasing timestamps, the records older than the k-th
      are exactly those after it. */
  lemma SuffixAfterCursor(l: seq<Activity>, q: Query, k: nat)
    requires 1 <= k <= |l|
    requires StrictlyNewestFirst(l)
    requires forall i :: 0 <= i < |l| ==> Matches(q, l[i])
    ensures Select(l, Query(q.tenantId, q.kind, Some(l[k - 1].createdAt))) == l[k..]
  {
    var q2 := Query(q.tenantId, q.kind, Some(l[k - 1].createdAt));
    assert l == l[..k] + l[k..];
    SelectAppend(l[..k], l[k..], q2);
    PageNotAfterCursor(l, q2, k);
    RestAfterCursor(l, q, k);
  }

  /** No record of the page itself is older than the page's last record. */
  lemma PageNotAfterCursor(l: seq<Activity>, q2: Query, k: nat)
    requires 1 <= k <= |l|
    requires StrictlyNewestFirst(l)
    requires q2.before == Some(l[k - 1].createdAt)
    ensures Select(l[..k], q2) == []
  {
    var page := l[..k];
    forall i | 0 <= i < |page| ensures !Matches(q2, page[i]) {
      assert page[i] == l[i];
    }
    SelectNone(page, q2);
  }

  /** Every record after the page is older than its last record. */
  lemma RestAfterCursor(l: seq<Activity>, q: Query, k: nat)
    requires 1 <= k <= |l|
    requires StrictlyNewestFirst(l)
    requires forall i :: 0 <= i < |l| ==> Matches(q, l[i])
    ensures Select(l[k..], Query(q.tenantId, q.kind, Some(l[k - 1].createdAt))) == l[k..]
  {
    var q2 := Query(q.tenantId, q.kind, Some(l[k - 1].createdAt));
    var rest := l[k..];
    forall i | 0 <= i < |rest| ensures Matches(q2, rest[i]) {
      assert rest[i] == l[k + i];
      assert Matches(q, l[k + i]);
    }
    SelectAll(rest, q2);
  }

  /** Under strictly decreasing timestamps, the records matching from a
      page's `nextCursor` on are exactly those after the page. */
  lemma NextPageIsRest(store: seq<Activity>, q: Query, limit: nat)
    requires limit >= 1
    requires FetchPage(store, q, limit).hasMore
    requires StrictlyNewestFirst(Matching(store, q))
    ensures Matching(store, Query(q.tenantId, q.kind, FetchPage(store, q, limit).nextCursor))
         == Matching(store, q)[limit..]
  {
    var l := Matching(store, q);
    var last := LastOfFullPage(store, q, limit);
    var q2 := Query(q.tenantId, q.kind, Some(last.createdAt));
    SelectSelect(store, q, q2);
    SelectSort(Select(store, q), q2);
    MatchingAllMatch(store, q);
    SuffixAfterCursor(l, q, limit);
  }

  lemma MatchingAllMatch(store: seq<Activity>, q: Query)
    ensures forall i :: 0 <= i < |Matching(store, q)| ==> Matches(q, Matching(store, q)[i])
  {
    var l := Matching(store, q);
    MatchingMembers(store, q);
    forall i | 0 <= i < |l| ensures Matches(q, l[i]) {
      assert l[i] in l;
    }
  }

  lemma CrawlStep(store: seq<Activity>, tenantId: string, kind: Option<string>, limit: nat,
                  cursor: Option<int>)
    requires limit >= 1
    ensures var p := FetchPage(store, Query(tenantId, kind, cursor), limit);
      Crawl(store, tenantId, kind, limit, cursor)
        == if p.hasMore then p.data + Crawl(store, tenantId, kind, limit, p.nextCursor) else p.data
  {
  }

  lemma StrictSuffix(l: seq<Activity>, k: nat)
    requires k <= |l| && StrictlyNewestFirst(l)
    ensures StrictlyNewestFirst(l[k..])
  {
    var rest := l[k..];
    forall i, j | 0 <= i < j < |rest| ensures rest[i].createdAt > rest[j].createdAt {
      assert rest[i] == l[k + i] && rest[j] == l[k + j];
    }
  }

  /** From any cursor whose matching records have distinct timestamps, the
      pages together are exactly those records, newest first. */
  lemma {:induction false} CrawlFrom(store: seq<Activity>, tenantId: string, kind: Option<string>,
                                     limit: nat, cursor: Option<int>)
    requires limit >= 1
    requires StrictlyNewestFirst(Matching(store, Query(tenantId, kind, cursor)))
    ensures Crawl(store, tenantId, kind, limit, cursor) == Matching(store, Query(tenantId, kind, cursor))
    decreases |Select(store, Query(tenantId, kind, cursor))|
  {
    var q := Query(tenantId, kind, cursor);
    var l := Matching(store, q);
    var p := FetchPage(store, q, limit);
    CrawlStep(store, tenantId, kind, limit, cursor);
    if p.hasMore {
      CursorAdvances(store, q, limit);
      NextPageIsRest(store, q, limit);
      StrictSuffix(l, limit);
      CrawlFrom(store, tenantId, kind, limit, p.nextCursor);
      assert l[..limit] + l[limit..] == l;
    }
  }

  lemma DistinctTail(s: seq<Activity>)
    requires s != [] && DistinctTimes(s)
    ensures DistinctTimes(s[1..])
    ensures forall a :: a in s[1..] ==> a.createdAt != s[0].createdAt
  {
    forall i, j | 0 <= i < j < |s| - 1 ensures s[1..][i].createdAt != s[1..][j].createdAt {
      assert s[1..][i] == s[i + 1] && s[1..][j] == s[j + 1];
    }
    forall a | a in s[1..] ensures a.createdAt != s[0].createdAt {
      var k :| 0 <= k < |s| - 1 && s[1..][k] == a;
      assert s[k + 1] == a;
    }
  }

  lemma DistinctCons(x: Activity, s: seq<Activity>)
    requires DistinctTimes(s)
    requires forall a :: a in s ==> a.createdAt != x.createdAt
    ensures DistinctTimes([x] + s)
  {
    var t := [x] + s;
    forall i, j | 0 <= i < j < |t| ensures t[i].createdAt != t[j].createdAt {
      assert t[j] == s[j - 1];
      if i > 0 {
        assert t[i] == s[i - 1];
      }
    }
  }

  lemma {:induction false} SelectDistinct(s: seq<Activity>, q: Query)
    requires DistinctTimes(s)
    ensures DistinctTimes(Select(s, q))
  {
    if s != [] {
      DistinctTail(s);
      SelectDistinct(s[1..], q);
      SelectMembers(s[1..], q);
      if Matches(q, s[0]) {
        DistinctCons(s[0], Select(s[1..], q));
      }
    }
  }

  lemma {:induction false} InsertDistinct(x: Activity, s: seq<Activity>)
    requires DistinctTimes(s)
    requires forall a :: a in s ==> a.createdAt != x.createdAt
    ensures DistinctTimes(Insert(x, s))
  {
    if s == [] || x.createdAt >= s[0].createdAt {
      DistinctCons(x, s);
    } else {
      DistinctTail(s);
      InsertDistinct(x, s[1..]);
      InsertMembers(x, s[1..]);
      DistinctCons(s[0], Insert(x, s[1..]));
    }
  }

  /** Sorted with no two timestamps equal is strictly sorted. */
  lemma {:induction false} SortDistinct(s: seq<Activity>)
    requires DistinctTimes(s)
    ensures StrictlyNewestFirst(SortNewestFirst(s))
  {
    assert DistinctTimes(SortNewestFirst(s)) by {
      if s != [] {
        DistinctTail(s);
        SortDistinct(s[1..]);
        SortMembers(s[1..]);
        InsertDistinct(s[0], SortNewestFirst(s[1..]));
      }
    }
  }

  /** Pagination completeness: when the records a feed asks for have
      distinct timestamps, following `nextCursor` from the first page until
      `hasMore` is false returns every one of them exactly once, newest
      first. */
  lemma PaginationComplete(store: seq<Activity>, tenantId: string, kind: Option<string>, limit: nat)
    requires limit >= 1
    requires DistinctTimes(Select(store, Query(tenantId, kind, None)))
    ensures Crawl(store, tenantId, kind, limit, None) == Matching(store, Query(tenantId, kind, None))
    ensures multiset(Crawl(store, tenantId, kind, limit, None))
         == multiset(Select(store, Query(tenantId, kind, None)))
    ensures NewestFirst(Crawl(store, tenantId, kind, limit, None))
  {
    SortDistinct(Select(store, Query(tenantId, kind, None)));
    CrawlFrom(store, tenantId, kind, limit, None);
  }

  /** For any store: when the record just after a full page has the same
      timestamp as the page's last record, it matches the query, yet the
      query built from `nextCursor` (strictly older) excludes it, so no later
      page returns it. */
  lemma TieAtBoundaryIsSkipped(store: seq<Activity>, q: Query, limit: nat)
    requires limit >= 1
    requires FetchPage(store, q, limit).hasMore
    requires Matching(store, q)[limit].createdAt == Matching(store, q)[limit - 1].createdAt
    ensures Matching(store, q)[limit] in store && Matches(q, Matching(store, q)[limit])
    ensures var next := Query(q.tenantId, q.kind, FetchPage(store, q, limit).nextCursor);
      && !Matches(next, Matching(store, q)[limit])
      && Matching(store, q)[limit] !in Matching(store, next)
  {
    var l := Matching(store, q);
    var next := Query(q.tenantId, q.kind, FetchPage(store, q, limit).nextCursor);
    assert l[limit] in l;
    MatchingMembers(store, q);
    MatchingMembers(store, next);
  }

  /** An illustration of `TieAtBoundaryIsSkipped` on a concrete store: two
      records with one timestamp, one per page. The crawl from the first
      page returns only the first record, because the next page asks for
      records strictly older than the cursor. */
  lemma TieAtPageBoundarySkipsRecord()
    ensures
      var first := Activity("a1", "t1", "u1", "Ann", "USER_LOGIN", None, map[], 1000);
      var second := first.(id := "a2");
      && second in Select([first, second], Query("t1", None, None))
      && Crawl([first, second], "t1", None, 1, None) == [first]
  {
    var first := Activity("a1", "t1", "u1", "Ann", "USER_LOGIN", None, map[], 1000);
    var second := first.(id := "a2");
    var store := [first, second];
    assert store[1..] == [second] && [second][1..] == [];
    var q := Query("t1", None, None);
    assert Select(store, q) == [first, second];
    assert SortNewestFirst([second]) == [second];
    assert Matching(store, q) == [first, second];
    var p := FetchPage(store, q, 1);
    assert p == Page([first], Some(1000), true);
    var q2 := Query("t1", None, Some(1000));
    assert Select(store, q2) == [];
    assert Matching(store, q2) == [];
    assert FetchPage(store, q2, 1) == Page([], None, false);
  }
}
