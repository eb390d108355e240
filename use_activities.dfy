/** The feed's client-side state: the loaded list, the pagination cursor,
    `hasMore`, two loading flags and an error, plus the two refs that decide
    when the filter effect reloads. Each request completion is one atomic
    transition; the request itself is returned to the caller. */
module UseActivities {
  import opened Wrappers
  import opened JsText
  import opened ActivityModel

  // ---------------------------------------------------------------------
  // The pure list updaters

  /** The rollback updater: the list without the entries carrying `id`. */
  function WithoutId(s: seq<Activity>, id: string): (r: seq<Activity>)
    ensures |r| <= |s|
    ensures forall k :: 0 <= k < |r| ==> r[k].id != id
  {
    if s == [] then []
    else if s[0].id == id then WithoutId(s[1..], id)
    else [s[0]] + WithoutId(s[1..], id)
  }

  /** Rollback keeps exactly the entries with another id. */
  lemma {:induction false} WithoutIdMembers(s: seq<Activity>, id: string, x: Activity)
    ensures x in WithoutId(s, id) <==> x in s && x.id != id
  {
    if s != [] {
      WithoutIdMembers(s[1..], id, x);
      assert s == [s[0]] + s[1..];
    }
  }

  /** Rollback works piecewise, so the entries it keeps stay in order. */
  lemma {:induction false} WithoutIdAppend(a: seq<Activity>, b: seq<Activity>, id: string)
    ensures WithoutId(a + b, id) == WithoutId(a, id) + WithoutId(b, id)
  {
    if a == [] {
      assert a + b == b;
    } else {
      assert (a + b)[0] == a[0];
      assert (a + b)[1..] == a[1..] + b;
      WithoutIdAppend(a[1..], b, id);
    }
  }

  /** Rollback leaves a list without the id as it is. */
  lemma {:induction false} WithoutAbsentId(s: seq<Activity>, id: string)
    requires !HasId(s, id)
    ensures WithoutId(s, id) == s
  {
    if s != [] {
      assert !HasId(s[1..], id) by {
        forall k | 0 <= k < |s[1..]| ensures s[1..][k].id != id {
          assert s[1..][k] == s[k + 1];
        }
      }
      WithoutAbsentId(s[1..], id);
      assert s == [s[0]] + s[1..];
    }
  }

  /** An optimistic prepend followed by its rollback restores the list,
      provided no other entry carries the temporary id. */
  lemma RollbackUndoesPrepend(temp: Activity, s: seq<Activity>)
    requires !HasId(s, temp.id)
    ensures WithoutId([temp] + s, temp.id) == s
  {
    assert ([temp] + s)[1..] == s;
    WithoutAbsentId(s, temp.id);
  }

  /** The replace updater: every entry carrying `id` becomes `saved`. */
  function ReplaceId(s: seq<Activity>, id: string, saved: Activity): (r: seq<Activity>)
    ensures |r| == |s|
    ensures forall k :: 0 <= k < |s| ==> r[k] == (if s[k].id == id then saved else s[k])
  {
    if s == [] then []
    else [if s[0].id == id then saved else s[0]] + ReplaceId(s[1..], id, saved)
  }

  /** Replacing an id the list does not hold (say after a refresh) changes
      nothing. */
  lemma ReplaceAbsentId(s: seq<Activity>, id: string, saved: Activity)
    requires !HasId(s, id)
    ensures ReplaceId(s, id, saved) == s
  {
  }

  /** Replacing the optimistic entry at the head swaps in the server's
      record and keeps the rest of the list. */
  lemma ReplaceAfterPrepend(temp: Activity, s: seq<Activity>, saved: Activity)
    requires !HasId(s, temp.id)
    ensures ReplaceId([temp] + s, temp.id, saved) == [saved] + s
  {
    assert ([temp] + s)[1..] == s;
    assert ReplaceId([temp] + s, temp.id, saved)[1..] == ReplaceId(s, temp.id, saved);
    ReplaceAbsentId(s, temp.id, saved);
  }

  // ---------------------------------------------------------------------
  // The state machine

  /** The page size every request asks for. */
  const PageSize: nat := 20

  /** A request to the list endpoint. */
  datatype FetchRequest = FetchRequest(cursor: Option<string>, limit: nat, kind: Option<string>)

  /** How a request ended: the parsed body (`data` may be missing), or the
      message of the thrown error. */
  datatype FetchResult =
    | Fetched(data: Option<seq<Activity>>, nextCursor: Option<string>, hasMore: bool)
    | FetchFailed(message: string)

  class Feed {
    var activities: seq<Activity>
    var loading: bool
    var initialLoading: bool
    var error: Option<string>
    var cursor: Option<string>
    var hasMore: bool
    /** The `initialLoadDone` ref. */
    var initialLoadDone: bool
    /** The `prevFilter` ref. */
    var prevFilter: Option<string>
    /** The hook's current `typeFilter` argument. */
    var typeFilter: Option<string>

    /** The state on mount, before the effect runs. */
    constructor (typeFilter: Option<string>)
      ensures activities == [] && !loading && initialLoading && error.None?
      ensures cursor.None? && hasMore && !initialLoadDone
      ensures prevFilter == typeFilter && this.typeFilter == typeFilter
    {
      activities := [];
      loading := false;
      initialLoading := true;
      error := None;
      cursor := None;
      hasMore := true;
      initialLoadDone := false;
      prevFilter := typeFilter;
      this.typeFilter := typeFilter;
    }

    /** The first half of `fetchPage`: raise the right loading flag, clear
        the error, and send the request for the current filter. */
    method BeginFetch(cursorValue: Option<string>, isInitial: bool) returns (req: FetchRequest)
      modifies this
      ensures req == FetchRequest(cursorValue, PageSize, typeFilter)
      ensures error.None?
      ensures initialLoading == (isInitial || old(initialLoading))
      ensures loading == (!isInitial || old(loading))
      ensures activities == old(activities) && cursor == old(cursor) && hasMore == old(hasMore)
      ensures initialLoadDone == old(initialLoadDone) && prevFilter == old(prevFilter)
      ensures typeFilter == old(typeFilter)
    {
      if isInitial {
        initialLoading := true;
      } else {
        loading := true;
      }
      error := None;
      req := FetchRequest(cursorValue, PageSize, typeFilter);
    }

    /** The second half of `fetchPage`: an initial page replaces the list,
        a later one is appended; the cursor and `hasMore` come from the
        response. A failure only records its message. Both loading flags
        end up down. */
    method CompleteFetch(isInitial: bool, result: FetchResult)
      modifies this
      ensures !loading && !initialLoading
      ensures result.Fetched? ==>
        && activities == (if isInitial then [] else old(activities)) + result.data.GetOr([])
        && cursor == result.nextCursor
        && hasMore == result.hasMore
        && error == old(error)
      ensures result.FetchFailed? ==>
        && activities == old(activities)
        && cursor == old(cursor)
        && hasMore == old(hasMore)
        && error == Some(result.message)
      ensures initialLoadDone == old(initialLoadDone) && prevFilter == old(prevFilter)
      ensures typeFilter == old(typeFilter)
    {
      if result.Fetched? {
        var page := result.data.GetOr([]);
        if isInitial {
          activities := page;
        } else {
          activities := activities + page;
        }
        cursor := result.nextCursor;
        hasMore := result.hasMore;
      } else {
        error := Some(result.message);
      }
      loading := false;
      initialLoading := false;
    }

    /** `loadMore`'s guard. The scroll trigger is enabled by the same test
        without the cursor; `loadMore` then sends a request exactly when this
        whole guard holds. */
    predicate CanLoadMore()
      reads this
    {
      !loading && !initialLoading && hasMore && Truthy(cursor)
    }

    /** `loadMore`: fetch the page after the cursor, only when idle, more
        remains and a cursor is known; otherwise nothing happens. */
    method LoadMore() returns (req: Option<FetchRequest>)
      modifies this
      ensures req.Some? <==> old(CanLoadMore())
      ensures req.Some? ==> req.value == FetchRequest(old(cursor), PageSize, typeFilter)
                            && loading && error.None?
      ensures req.None? ==> unchanged(this)
      ensures activities == old(activities) && cursor == old(cursor) && hasMore == old(hasMore)
      ensures initialLoading == old(initialLoading)
      ensures initialLoadDone == old(initialLoadDone) && prevFilter == old(prevFilter)
      ensures typeFilter == old(typeFilter)
    {
      if !loading && !initialLoading && hasMore && Truthy(cursor) {
        var r := BeginFetch(cursor, false);
        req := Some(r);
      } else {
        req := None;
      }
    }

    /** Empty the list and forget the cursor, then fetch the first page. */
    method Reset() returns (req: FetchRequest)
      modifies this
      ensures activities == [] && cursor.None? && hasMore
      ensures initialLoading && error.None? && loading == old(loading)
      ensures req == FetchRequest(None, PageSize, typeFilter)
      ensures initialLoadDone == old(initialLoadDone) && prevFilter == old(prevFilter)
      ensures typeFilter == old(typeFilter)
    {
      activities := [];
      cursor := None;
      hasMore := true;
      req := BeginFetch(None, true);
    }

    /** `refreshFeed`. */
    method Refresh() returns (req: FetchRequest)
      modifies this
      ensures activities == [] && cursor.None? && hasMore && initialLoading && error.None?
      ensures loading == old(loading)
      ensures req == FetchRequest(None, PageSize, typeFilter)
      ensures initialLoadDone == old(initialLoadDone) && prevFilter == old(prevFilter)
      ensures typeFilter == old(typeFilter)
    {
      req := Reset();
    }

    /** The effect, run on mount and whenever the hook is rendered with a
        new `typeFilter`: it reloads only on its first run or when the filter
        differs from the one it last recorded. */
    method FilterEffect(newFilter: Option<string>) returns (req: Option<FetchRequest>)
      modifies this
      ensures typeFilter == newFilter
      ensures req.Some? <==> !old(initialLoadDone) || old(prevFilter) != newFilter
      ensures req.Some? ==>
        && req.value == FetchRequest(None, PageSize, newFilter)
        && activities == [] && cursor.None? && hasMore && initialLoading
        && error.None? && loading == old(loading)
        && initialLoadDone && prevFilter == newFilter
      ensures req.None? ==>
        && activities == old(activities) && cursor == old(cursor) && hasMore == old(hasMore)
        && loading == old(loading) && initialLoading == old(initialLoading)
        && error == old(error) && initialLoadDone == old(initialLoadDone)
        && prevFilter == old(prevFilter)
    {
      typeFilter := newFilter;
      if !initialLoadDone || prevFilter != newFilter {
        initialLoadDone := true;
        prevFilter := newFilter;
        var r := Reset();
        req := Some(r);
      } else {
        req := None;
      }
    }

    /** `addOptimisticActivity`: the entry goes in front of the list. */
    method AddOptimistic(temp: Activity)
      modifies this
      ensures activities == [temp] + old(activities)
      ensures loading == old(loading) && initialLoading == old(initialLoading)
      ensures error == old(error) && cursor == old(cursor) && hasMore == old(hasMore)
      ensures initialLoadDone == old(initialLoadDone) && prevFilter == old(prevFilter)
      ensures typeFilter == old(typeFilter)
    {
      activities := [temp] + activities;
    }

    /** The rollback closure `addOptimisticActivity` returns for `tempId`. */
    method Rollback(tempId: string)
      modifies this
      ensures activities == WithoutId(old(activities), tempId)
      ensures loading == old(loading) && initialLoading == old(initialLoading)
      ensures error == old(error) && cursor == old(cursor) && hasMore == old(hasMore)
      ensures initialLoadDone == old(initialLoadDone) && prevFilter == old(prevFilter)
      ensures typeFilter == old(typeFilter)
    {
      activities := WithoutId(activities, tempId);
    }

    /** `replaceOptimisticActivity`. */
    method Replace(tempId: string, saved: Activity)
      modifies this
      ensures activities == ReplaceId(old(activities), tempId, saved)
      ensures loading == old(loading) && initialLoading == old(initialLoading)
      ensures error == old(error) && cursor == old(cursor) && hasMore == old(hasMore)
      ensures initialLoadDone == old(initialLoadDone) && prevFilter == old(prevFilter)
      ensures typeFilter == old(typeFilter)
    {
      activities := ReplaceId(activities, tempId, saved);
    }
  }
}
