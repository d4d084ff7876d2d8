/** How the pieces fit together: the client's page requests
    (`components/use-chat-query.ts`) answered by the history route
    (`app/api/messages/route.ts`) and rendered by
    `components/chat/chat-messages.tsx`; the attachment dialog's form data
    (`components/modals/message-file-modal.tsx`) read by the live ingest
    handler (`pages/api/socket/messages/index.ts`). */
module ChatSync {
  import opened Common
  import opened Store
  import opened MessagesRoute
  import opened ChatQuery
  import opened ChatMessages
  import MessageIngest
  import MessageFileModal

  /** The response to `fetchMessages({pageParam})` for a channel. `corrected`
      picks the route with the corrected cursor filter. */
  function Fetch(profile: Id, t: seq<Message>, channelId: Id, pageParam: Option<Id>, corrected: bool): (r: Response)
    ensures channelId == "" ==> r == Failure(BAD_REQUEST)
    ensures channelId != "" ==> r.Page? && |r.items| <= MSG_BATCH
  {
    var q := FetchQuery("channelId", channelId, pageParam);
    if corrected then GetCorrected(Some(profile), q, t, false) else Get(Some(profile), q, t, false)
  }

  /** The pages held after the first load and `n` scrolls to the top, each
      scroll fetching the next page only while `hasNextPage` holds. */
  function Pages(profile: Id, t: seq<Message>, channelId: Id, n: nat, corrected: bool): (pages: seq<Response>)
    ensures |pages| >= 1
  {
    if n == 0 then [Fetch(profile, t, channelId, INITIAL_PAGE_PARAM, corrected)]
    else
      var prev := Pages(profile, t, channelId, n - 1, corrected);
      if HasNextPage(prev)
      then prev + [Fetch(profile, t, channelId, NextPageParam(prev[|prev| - 1]), corrected)]
      else prev
  }

  function Min(a: nat, b: nat): nat
  {
    if a < b then a else b
  }

  /** Items of loaded pages extended by one. */
  lemma ItemsSnoc(pages: seq<Response>, p: Response)
    ensures Items(pages + [p]) == Items(pages) + (if p.Page? then p.items else [])
  {
    assert (pages + [p])[..|pages|] == pages;
  }

  /** Ids a cursor can be built from. */
  ghost predicate UsableIds(t: seq<Message>)
  {
    UniqueIds(t) && forall m :: m in t ==> m.id != ""
  }

  lemma HistoryIdsNonEmpty(t: seq<Message>, channelId: Id, i: nat)
    requires UsableIds(t) && i < |History(t, channelId)|
    ensures History(t, channelId)[i].id != ""
  {
    assert History(t, channelId)[i] in History(t, channelId);
  }

  /** The pages show the newest `b` messages of the history `h` (all of
      them when there are fewer), a next page exists exactly while `h` has at
      least `b`, and its cursor is then the `b`-th message's id. */
  ghost predicate LoadedUpTo(pages: seq<Response>, h: seq<Message>, b: nat)
  {
    && Items(pages) == h[..Min(|h|, b)]
    && (HasNextPage(pages) <==> |h| >= b)
    && (HasNextPage(pages) ==> 0 < b && NextPageParam(pages[|pages| - 1]) == Some(h[b - 1].id))
  }

  /** With the corrected cursor filter, `n` scrolls show the channel's newest
      `10 * (n + 1)` messages (or all of them), `hasNextPage` holds exactly
      while that many exist, and the next cursor is the oldest one shown. */
  lemma {:induction false} CorrectedLoadsHistory(profile: Id, t: seq<Message>, channelId: Id, n: nat)
    requires UsableIds(t) && channelId != ""
    ensures LoadedUpTo(Pages(profile, t, channelId, n, true), History(t, channelId), MSG_BATCH * (n + 1))
  {
    if n == 0 {
      CorrectedFirstPage(profile, t, channelId);
    } else {
      CorrectedLoadsHistory(profile, t, channelId, n - 1);
      var k := MSG_BATCH * n;
      assert MSG_BATCH * (n - 1 + 1) == k;
      assert MSG_BATCH * (n + 1) == k + MSG_BATCH;
      var prev := Pages(profile, t, channelId, n - 1, true);
      if HasNextPage(prev) {
        PagesStep(profile, t, channelId, n, true);
        CorrectedNextPage(profile, t, channelId, prev, k);
      } else {
        assert Pages(profile, t, channelId, n, true) == prev;
      }
    }
  }

  lemma CorrectedFirstPage(profile: Id, t: seq<Message>, channelId: Id)
    requires channelId != ""
    ensures LoadedUpTo(Pages(profile, t, channelId, 0, true), History(t, channelId), MSG_BATCH)
  {
    var q := FetchQuery("channelId", channelId, None);
    FirstPage(profile, q, t);
    var p := Fetch(profile, t, channelId, None, true);
    assert Pages(profile, t, channelId, 0, true) == [p];
    ItemsSnoc([], p);
  }

  /** The corrected route's answer to the cursor `h[k-1].id`. */
  lemma CorrectedCursorPage(profile: Id, t: seq<Message>, channelId: Id, k: nat)
    requires UsableIds(t) && channelId != ""
    requires 0 < k <= |History(t, channelId)|
    ensures var h := History(t, channelId);
      Fetch(profile, t, channelId, Some(h[k - 1].id), true) == PageOf(h[k..][..Min(|h| - k, MSG_BATCH)])
  {
    var h := History(t, channelId);
    var q := FetchQuery("channelId", channelId, Some(h[k - 1].id));
    HistoryIdsNonEmpty(t, channelId, k - 1);
    CursorPageCorrected(profile, q, t, k);
  }

  /** Appending the batch after the first `k` messages. */
  lemma SnocBatch(prev: seq<Response>, h: seq<Message>, k: nat, p: Response)
    requires k <= |h| && Items(prev) == h[..k]
    requires p == PageOf(h[k..][..Min(|h| - k, MSG_BATCH)])
    ensures LoadedUpTo(prev + [p], h, k + MSG_BATCH)
  {
    var m := Min(|h| - k, MSG_BATCH);
    ItemsSnoc(prev, p);
    assert h[..k] + h[k..][..m] == h[..Min(|h|, k + MSG_BATCH)];
  }

  lemma PagesStep(profile: Id, t: seq<Message>, channelId: Id, n: nat, corrected: bool)
    requires n >= 1 && HasNextPage(Pages(profile, t, channelId, n - 1, corrected))
    ensures var prev := Pages(profile, t, channelId, n - 1, corrected);
      Pages(profile, t, channelId, n, corrected)
      == prev + [Fetch(profile, t, channelId, NextPageParam(prev[|prev| - 1]), corrected)]
  {
  }

  /** One scroll with a next page under the corrected route. */
  lemma CorrectedNextPage(profile: Id, t: seq<Message>, channelId: Id, prev: seq<Response>, k: nat)
    requires UsableIds(t) && channelId != ""
    requires LoadedUpTo(prev, History(t, channelId), k) && HasNextPage(prev)
    ensures LoadedUpTo(prev + [Fetch(profile, t, channelId, NextPageParam(prev[|prev| - 1]), true)],
                       History(t, channelId), k + MSG_BATCH)
  {
    var h := History(t, channelId);
    CorrectedCursorPage(profile, t, channelId, k);
    SnocBatch(prev, h, k, Fetch(profile, t, channelId, Some(h[k - 1].id), true));
  }

  /** As written, the cursor page is always empty: however far the user
      scrolls, only the newest batch is ever shown, and a second scroll
      finds no next page. */
  lemma {:induction false} AsWrittenStopsAtFirstBatch(profile: Id, t: seq<Message>, channelId: Id, n: nat)
    requires UsableIds(t) && channelId != ""
    ensures var h := History(t, channelId);
      var pages := Pages(profile, t, channelId, n, false);
      && Items(pages) == h[..Min(|h|, MSG_BATCH)]
      && (n >= 1 ==> !HasNextPage(pages))
      && (n == 0 ==> (HasNextPage(pages) <==> |h| >= MSG_BATCH))
  {
    var h := History(t, channelId);
    var q0 := FetchQuery("channelId", channelId, None);
    FirstPage(profile, q0, t);
    ItemsSnoc([], Fetch(profile, t, channelId, None, false));
    if n > 0 {
      var prev := Pages(profile, t, channelId, n - 1, false);
      AsWrittenStopsAtFirstBatch(profile, t, channelId, n - 1);
      if HasNextPage(prev) {
        var cursor := NextPageParam(prev[|prev| - 1]);
        HistoryIdsNonEmpty(t, channelId, MSG_BATCH - 1);
        var q := FetchQuery("channelId", channelId, cursor);
        CursorPageAsWrittenEmpty(profile, q, t);
        ItemsSnoc(prev, Fetch(profile, t, channelId, cursor, false));
      }
    }
  }

  /** The discrepancy in one statement: with more than one batch of history,
      a scroll shows strictly more under the corrected route than as written. */
  lemma HistoryLostAsWritten(profile: Id, t: seq<Message>, channelId: Id, n: nat)
    requires UsableIds(t) && channelId != "" && n >= 1
    requires |History(t, channelId)| > MSG_BATCH
    ensures |Items(Pages(profile, t, channelId, n, false))| == MSG_BATCH
    ensures |Items(Pages(profile, t, channelId, n, true))| > MSG_BATCH
  {
    AsWrittenStopsAtFirstBatch(profile, t, channelId, n);
    CorrectedLoadsHistory(profile, t, channelId, n);
  }

  /** The welcome banner is shown exactly when the whole history is loaded
      (fewer than a scroll's worth of messages). */
  lemma {:induction false} WelcomeWhenHistoryExhausted(profile: Id, t: seq<Message>, channelId: Id, n: nat, fetching: bool)
    requires UsableIds(t) && channelId != ""
    ensures var pages := Pages(profile, t, channelId, n, true);
      var v := Render(Success, true, HasNextPage(pages), fetching, pages);
      && v.ChatView? && v.items == History(t, channelId)[..Min(|History(t, channelId)|, MSG_BATCH * (n + 1))]
      && (v.welcome <==> |History(t, channelId)| < MSG_BATCH * (n + 1))
  {
    CorrectedLoadsHistory(profile, t, channelId, n);
  }

  /** The topic the ingest handler emits on is the one the chat listens to. */
  lemma EmitTopicIsListenedTopic(channelId: Id)
    ensures MessageIngest.ChannelKey(channelId) == AddKey(channelId)
  {
  }

  /** A freshly stored message is shown as edited exactly when the store
      gave its two timestamp columns different instants. */
  lemma NewMessageNotEdited(p: MessageIngest.Decision, fileUrl: Option<Url>, id: Id, createdAt: int, updatedAt: int)
    requires p.Write?
    ensures IsUpdated(MessageIngest.NewRow(p, fileUrl, id, createdAt, updatedAt)) <==> createdAt != updatedAt
  {
  }

  /** The request the live ingest handler sees for a dialog submission. */
  function Submission(serverId: string, channelId: string, file: FileBlob, caption: string): MessageIngest.Request
  {
    MessageIngest.Request("POST", Some(serverId), Some(channelId),
                          Some(MessageIngest.ParseForm(MessageFileModal.FormDataOf(file, caption))))
  }

  /** The form data carries its file and caption through the parser. */
  lemma {:induction false} SubmissionParses(file: FileBlob, caption: string)
    ensures var f := MessageIngest.ParseForm(MessageFileModal.FormDataOf(file, caption));
      && MessageIngest.UploadedFile(f) == Some(file)
      && (f.caption.None? <==> caption == "")
      && (caption != "" ==> MessageIngest.CaptionAsWritten(f) == Some(caption))
      && MessageIngest.CaptionCorrected(f) == caption
  {
    var entries := MessageFileModal.FormDataOf(file, caption);
    assert MessageIngest.FileValues(entries, "file") == [file] by {
      assert MessageIngest.FileValues(entries[1..], "file") == [];
    }
    if caption == "" {
      assert MessageIngest.TextValues(entries, "caption") == [];
    } else {
      assert entries[1..] == [TextEntry("caption", caption)];
      assert MessageIngest.TextValues(entries[1..], "caption") == [caption];
      assert MessageIngest.TextValues(entries, "caption") == [caption];
    }
  }

  /** As written, an attachment sent without a caption is refused with a 500
      by a signed-in member, before membership is even looked at. */
  lemma FileOnlySubmissionFails(serverId: string, channelId: string, file: FileBlob,
                                profile: Id, servers: seq<Server>)
    requires serverId != "" && channelId != ""
    ensures MessageIngest.Decide(Submission(serverId, channelId, file, ""), Some(profile), servers)
            == MessageIngest.Reject(INTERNAL_ERROR)
  {
    SubmissionParses(file, "");
  }

  /** With the corrected caption read, a file-only submission is written
      exactly when the sender is a member of the server owning the channel;
      with a caption both readings agree. */
  lemma FileOnlySubmissionAccepted(serverId: string, channelId: string, file: FileBlob, caption: string,
                                   profile: Id, servers: seq<Server>)
    requires serverId != "" && channelId != ""
    ensures var p := MessageIngest.DecideCorrected(Submission(serverId, channelId, file, caption), Some(profile), servers);
      && (p.Write? <==> MessageIngest.FindServer(servers, serverId, profile).Some?
                        && MessageIngest.ChannelInServer(servers, serverId, channelId))
      && (p.Write? ==> p.content == caption && p.file == Some(file) && p.member.profileId == profile)
    ensures caption != "" ==>
      MessageIngest.Decide(Submission(serverId, channelId, file, caption), Some(profile), servers)
      == MessageIngest.DecideCorrected(Submission(serverId, channelId, file, caption), Some(profile), servers)
  {
    SubmissionParses(file, caption);
  }
}
