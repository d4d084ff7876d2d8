/** `GET` of `app/api/messages/route.ts`: cursor-paginated history of one
    channel, newest first, ten messages per page.

    `table` stands for the message table in the order `orderBy: {createdAt:
    "desc"}` yields. A `findMany` with a cursor starts at the cursor row of
    that order, applies its `where` filter, then `skip`, then `take`. */
module MessagesRoute {
  import opened Common
  import opened Store

  const MSG_BATCH: nat := 10

  /** `NextResponse.json({items, nextCursor})`, or an error status. */
  datatype Response = Page(items: seq<Message>, nextCursor: Option<Id>) | Failure(status: nat)

  /** The two `where` filters the route uses. */
  datatype Where = IdIs(id: Id) | ChannelIs(channelId: Id)

  type Query = seq<(string, string)>

  predicate Matches(m: Message, w: Where)
  {
    match w
    case IdIs(x) => m.id == x
    case ChannelIs(c) => m.channelId == c
  }

  /** Message ids are primary keys. */
  ghost predicate UniqueIds(t: seq<Message>)
  {
    forall i, j :: 0 <= i < j < |t| ==> t[i].id != t[j].id
  }

  /** The rows of `s` that satisfy `w`, in order. */
  function Filter(s: seq<Message>, w: Where): (r: seq<Message>)
    ensures |r| <= |s|
    ensures forall m :: m in r ==> m in s && Matches(m, w)
  {
    if s == [] then [] else (if Matches(s[0], w) then [s[0]] else []) + Filter(s[1..], w)
  }

  /** Position of the row with id `id`, if any. */
  function IndexOfId(t: seq<Message>, id: Id): (r: Option<nat>)
    ensures r.Some? ==> r.value < |t| && t[r.value].id == id
    ensures r.Some? ==> forall j :: 0 <= j < r.value ==> t[j].id != id
    ensures r.None? ==> forall j :: 0 <= j < |t| ==> t[j].id != id
  {
    if t == [] then None
    else if t[0].id == id then Some(0)
    else match IndexOfId(t[1..], id)
      case None => None
      case Some(i) => Some(i + 1)
  }

  /** `cursor: {id}`: the ordered rows from the cursor row on; no rows when
      the cursor row does not exist. */
  function FromCursor(t: seq<Message>, cursor: Option<Id>): (r: seq<Message>)
    ensures |r| <= |t|
  {
    match cursor
    case None => t
    case Some(c) =>
      match IndexOfId(t, c)
      case None => []
      case Some(i) => t[i..]
  }

  /** The cursor keeps a suffix of the ordered table: all of it without a
      cursor, one starting at the cursor row otherwise, empty only when no
      row has the cursor id. */
  lemma FromCursorSuffix(t: seq<Message>, cursor: Option<Id>)
    ensures var r := FromCursor(t, cursor);
      && r == t[|t| - |r|..]
      && (cursor.None? ==> r == t)
      && (cursor.Some? && r != [] ==> r[0].id == cursor.value)
      && (cursor.Some? && r == [] ==> forall j :: 0 <= j < |t| ==> t[j].id != cursor.value)
  {
  }

  /** `db.message.findMany({take, skip, cursor, where, orderBy createdAt desc})`. */
  function FindMany(t: seq<Message>, w: Where, cursor: Option<Id>, skip: nat, take: nat): (r: seq<Message>)
    ensures |r| <= take
    ensures forall m :: m in r ==> Matches(m, w)
  {
    var f := Filter(FromCursor(t, cursor), w);
    var d := if skip <= |f| then f[skip..] else [];
    if |d| <= take then d else d[..take]
  }

  /** `searchParams.get(key)`: the first value given for `key`. */
  function Param(q: Query, key: string): (r: Option<string>)
    ensures r.Some? <==> exists i :: 0 <= i < |q| && q[i].0 == key
  {
    if q == [] then None else if q[0].0 == key then Some(q[0].1) else Param(q[1..], key)
  }

  /** `get` returns the value of the first pair with the key. */
  lemma {:induction false} ParamFirst(q: Query, key: string)
    requires Param(q, key).Some?
    ensures exists i :: 0 <= i < |q| && q[i] == (key, Param(q, key).value) &&
                        forall j :: 0 <= j < i ==> q[j].0 != key
  {
    if q[0].0 != key {
      ParamFirst(q[1..], key);
      var i :| 0 <= i < |q[1..]| && q[1..][i] == (key, Param(q, key).value)
               && forall j :: 0 <= j < i ==> q[1..][j].0 != key;
      assert q[i + 1] == (key, Param(q, key).value);
      forall j | 0 <= j < i + 1 ensures q[j].0 != key {
        if j > 0 { assert q[j] == q[1..][j - 1]; }
      }
    }
  }

  /** The `nextCursor` rule: the last id exactly when a full batch came back. */
  function PageOf(items: seq<Message>): (r: Response)
    ensures r.Page? && r.items == items
    ensures r.nextCursor.Some? <==> |items| == MSG_BATCH
    ensures r.nextCursor.Some? ==> r.nextCursor.value == items[|items| - 1].id
  {
    Page(items, if |items| == MSG_BATCH then Some(items[|items| - 1].id) else None)
  }

  /** All messages of a channel, newest first. */
  function History(t: seq<Message>, channelId: Id): seq<Message>
  {
    Filter(t, ChannelIs(channelId))
  }

  /** The route as written. `profile` is what `currentProfile()` resolved;
      `queryFails` stands for a query that throws. The cursor branch filters
      `where: {id: channelId}` (route.ts:24). */
  function Get(profile: Option<Id>, q: Query, t: seq<Message>, queryFails: bool): (r: Response)
    ensures profile.None? ==> r == Failure(UNAUTHORIZED)
    ensures profile.Some? && !Truthy(Param(q, "channelId")) ==> r == Failure(BAD_REQUEST)
    ensures profile.Some? && Truthy(Param(q, "channelId")) && queryFails ==> r == Failure(INTERNAL_ERROR)
    ensures !r.Failure? ==> |r.items| <= MSG_BATCH
  {
    var cursor := Param(q, "cursor");
    var channelId := Param(q, "channelId");
    if profile.None? then Failure(UNAUTHORIZED)
    else if !Truthy(channelId) then Failure(BAD_REQUEST)
    else if queryFails then Failure(INTERNAL_ERROR)
    else if Truthy(cursor) then PageOf(FindMany(t, IdIs(channelId.value), cursor, 1, MSG_BATCH))
    else PageOf(FindMany(t, ChannelIs(channelId.value), None, 0, MSG_BATCH))
  }

  /** The route with the cursor branch filtering by `channelId`, as the
      first-page branch does. */
  function GetCorrected(profile: Option<Id>, q: Query, t: seq<Message>, queryFails: bool): (r: Response)
    ensures profile.None? ==> r == Failure(UNAUTHORIZED)
    ensures profile.Some? && !Truthy(Param(q, "channelId")) ==> r == Failure(BAD_REQUEST)
    ensures profile.Some? && Truthy(Param(q, "channelId")) && queryFails ==> r == Failure(INTERNAL_ERROR)
    ensures !r.Failure? ==> |r.items| <= MSG_BATCH
  {
    var cursor := Param(q, "cursor");
    var channelId := Param(q, "channelId");
    if profile.None? then Failure(UNAUTHORIZED)
    else if !Truthy(channelId) then Failure(BAD_REQUEST)
    else if queryFails then Failure(INTERNAL_ERROR)
    else if Truthy(cursor) then PageOf(FindMany(t, ChannelIs(channelId.value), cursor, 1, MSG_BATCH))
    else PageOf(FindMany(t, ChannelIs(channelId.value), None, 0, MSG_BATCH))
  }

  /** The first page (no cursor) is the channel's newest `min(10, n)`
      messages, and `nextCursor` is set exactly when there may be more. */
  lemma FirstPage(profile: Id, q: Query, t: seq<Message>)
    requires Truthy(Param(q, "channelId")) && !Truthy(Param(q, "cursor"))
    ensures var h := History(t, Param(q, "channelId").value);
      && Get(Some(profile), q, t, false) == GetCorrected(Some(profile), q, t, false)
      && Get(Some(profile), q, t, false).items == h[..if |h| < MSG_BATCH then |h| else MSG_BATCH]
      && (Get(Some(profile), q, t, false).nextCursor.Some? <==> |h| >= MSG_BATCH)
  {
  }

  // ---------------------------------------------------------------------
  // Filtering lemmas

  /** Filtering distributes over the head of a sequence. */
  lemma FilterCons(s: seq<Message>, w: Where)
    requires s != []
    ensures Filter(s, w) == (if Matches(s[0], w) then [s[0]] else []) + Filter(s[1..], w)
  {
  }

  /** Filtering drops no matching row. */
  lemma {:induction false} FilterKeepsMatches(s: seq<Message>, w: Where, m: Message)
    requires m in s && Matches(m, w)
    ensures m in Filter(s, w)
  {
    if s[0] != m {
      FilterKeepsMatches(s[1..], w, m);
    }
  }

  /** Filtering keeps the table's order: it distributes over concatenation. */
  lemma {:induction false} FilterAppend(a: seq<Message>, b: seq<Message>, w: Where)
    ensures Filter(a + b, w) == Filter(a, w) + Filter(b, w)
  {
    if a == [] {
      assert a + b == b;
    } else {
      assert (a + b)[0] == a[0];
      assert (a + b)[1..] == a[1..] + b;
      FilterAppend(a[1..], b, w);
    }
  }

  /** With unique ids, no row of the tail has the head's id. */
  lemma TailIdsDiffer(t: seq<Message>)
    requires t != [] && UniqueIds(t)
    ensures forall m :: m in t[1..] ==> m.id != t[0].id
  {
    forall m | m in t[1..] ensures m.id != t[0].id {
      var j :| 0 <= j < |t[1..]| && t[1..][j] == m;
      assert t[j + 1] == m;
    }
  }

  /** With unique ids, a filter on one id keeps at most one row. */
  lemma {:induction false} FilterByIdAtMostOne(t: seq<Message>, id: Id)
    requires UniqueIds(t)
    ensures |Filter(t, IdIs(id))| <= 1
  {
    if t != [] {
      assert UniqueIds(t[1..]) by {
        forall i, j | 0 <= i < j < |t[1..]| ensures t[1..][i].id != t[1..][j].id {
          assert t[1..][i] == t[i + 1] && t[1..][j] == t[j + 1];
        }
      }
      FilterByIdAtMostOne(t[1..], id);
      if t[0].id == id {
        TailIdsDiffer(t);
        NoneMatch(t[1..], IdIs(id));
      }
    }
  }

  /** A filter that no row satisfies keeps nothing. */
  lemma {:induction false} NoneMatch(s: seq<Message>, w: Where)
    requires forall m :: m in s ==> !Matches(m, w)
    ensures Filter(s, w) == []
  {
    if s != [] {
      assert s[0] in s;
      assert forall m :: m in s[1..] ==> m in s;
      NoneMatch(s[1..], w);
    }
  }

  /** As written, a request with a cursor always gets an empty page:
      `where: {id: channelId}` keeps at most one row and `skip: 1` drops it. */
  lemma CursorPageAsWrittenEmpty(profile: Id, q: Query, t: seq<Message>)
    requires UniqueIds(t)
    requires Truthy(Param(q, "channelId")) && Truthy(Param(q, "cursor"))
    ensures Get(Some(profile), q, t, false) == Page([], None)
  {
    var c := Param(q, "cursor");
    var f := FromCursor(t, c);
    assert UniqueIds(f) by {
      if IndexOfId(t, c.value).Some? {
        var i := IndexOfId(t, c.value).value;
        forall a, b | 0 <= a < b < |f| ensures f[a].id != f[b].id {
          assert f[a] == t[i + a] && f[b] == t[i + b];
        }
      }
    }
    FilterByIdAtMostOne(f, Param(q, "channelId").value);
  }

  /** Restricting the tail keeps ids unique. */
  lemma TailUnique(t: seq<Message>)
    requires t != [] && UniqueIds(t)
    ensures UniqueIds(t[1..])
  {
    forall i, j | 0 <= i < j < |t[1..]| ensures t[1..][i].id != t[1..][j].id {
      assert t[1..][i] == t[i + 1] && t[1..][j] == t[j + 1];
    }
  }

  /** The filtered row whose id is that of the head row is the head row. */
  lemma CursorAtHead(t: seq<Message>, w: Where, k: nat)
    requires t != [] && UniqueIds(t)
    requires k < |Filter(t, w)|
    ensures Filter(t, w)[k].id == t[0].id ==> k == 0 && Matches(t[0], w)
  {
    FilterCons(t, w);
    RestIdsDiffer(t, w);
    var rest := Filter(t[1..], w);
    if Matches(t[0], w) {
      if k > 0 {
        assert Filter(t, w)[k] == rest[k - 1];
      }
    } else {
      assert Filter(t, w)[k] == rest[k];
    }
  }

  /** No filtered row of the tail has the head's id. */
  lemma RestIdsDiffer(t: seq<Message>, w: Where)
    requires t != [] && UniqueIds(t)
    ensures forall j :: 0 <= j < |Filter(t[1..], w)| ==> Filter(t[1..], w)[j].id != t[0].id
  {
    TailIdsDiffer(t);
    var rest := Filter(t[1..], w);
    forall j | 0 <= j < |rest| ensures rest[j].id != t[0].id {
      assert rest[j] in rest;
    }
  }

  /** A cursor that is not the head row is found in the tail. */
  lemma FromCursorTail(t: seq<Message>, id: Id)
    requires t != [] && t[0].id != id
    ensures FromCursor(t, Some(id)) == FromCursor(t[1..], Some(id))
  {
    match IndexOfId(t[1..], id)
    case None =>
    case Some(i) =>
      assert t[i + 1..] == t[1..][i..];
  }

  /** Starting at the row whose id is that of the `k`-th filtered row, the
      filter yields the filtered rows from `k` on. */
  lemma {:induction false} FilterFromCursor(t: seq<Message>, w: Where, k: nat)
    requires UniqueIds(t)
    requires k < |Filter(t, w)|
    ensures Filter(FromCursor(t, Some(Filter(t, w)[k].id)), w) == Filter(t, w)[k..]
  {
    var id := Filter(t, w)[k].id;
    if t[0].id == id {
      CursorAtHead(t, w, k);
      assert FromCursor(t, Some(id)) == t[0..];
      assert t[0..] == t;
    } else {
      FilterCons(t, w);
      TailUnique(t);
      var rest := Filter(t[1..], w);
      var kk: nat := if Matches(t[0], w) then k - 1 else k;
      assert kk < |rest| && rest[kk] == Filter(t, w)[k];
      FilterFromCursor(t[1..], w, kk);
      FromCursorTail(t, id);
      assert rest[kk..] == Filter(t, w)[k..];
    }
  }

  /** The corrected route's page after the cursor `h[k-1].id` is the next
      batch of the channel's history `h[k..]`. */
  lemma CursorPageCorrected(profile: Id, q: Query, t: seq<Message>, k: nat)
    requires UniqueIds(t)
    requires Truthy(Param(q, "channelId"))
    requires var h := History(t, Param(q, "channelId").value);
      0 < k <= |h| && Param(q, "cursor") == Some(h[k - 1].id) && h[k - 1].id != ""
    ensures var h := History(t, Param(q, "channelId").value);
      GetCorrected(Some(profile), q, t, false).items
        == h[k..][..if |h| - k < MSG_BATCH then |h| - k else MSG_BATCH]
  {
    var h := History(t, Param(q, "channelId").value);
    FilterFromCursor(t, ChannelIs(Param(q, "channelId").value), k - 1);
    assert h[k - 1..][1..] == h[k..];
  }
}
