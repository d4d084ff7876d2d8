/** The logic of `ChatMessages` in `components/chat/chat-messages.tsx`: the
    three topic keys of a chat, the scroll and "edited" predicates, and which
    view the component renders. */
module ChatMessages {
  import opened Common
  import opened Store
  import opened MessagesRoute

  /** The cache key of the chat's history. */
  function QueryKey(chatId: Id): (k: string)
    ensures "chat:" <= k && |k| == |chatId| + 5
  {
    "chat:" + chatId
  }

  /** The topic on which new messages of the chat are pushed; the cache key
      is a proper prefix of it. */
  function AddKey(chatId: Id): (k: string)
    ensures QueryKey(chatId) < k && k[|QueryKey(chatId)|..] == ":messages"
  {
    QueryKey(chatId) + ":messages"
  }

  /** The topic on which edits of the chat's messages are pushed; the
      new-message topic is a proper prefix of it, so the three keys differ. */
  function UpdateKey(chatId: Id): (k: string)
    ensures AddKey(chatId) < k && k[|AddKey(chatId)|..] == ":update"
  {
    AddKey(chatId) + ":update"
  }

  /** Different chats never share a key of the same kind. */
  lemma {:induction false} KeysInjective(a: Id, b: Id)
    requires a != b
    ensures QueryKey(a) != QueryKey(b) && AddKey(a) != AddKey(b) && UpdateKey(a) != UpdateKey(b)
  {
    if |a| == |b| {
      var i :| 0 <= i < |a| && a[i] != b[i];
      assert QueryKey(a)[5 + i] == a[i] && QueryKey(b)[5 + i] == b[i];
      assert AddKey(a)[5 + i] == a[i] && AddKey(b)[5 + i] == b[i];
      assert UpdateKey(a)[5 + i] == a[i] && UpdateKey(b)[5 + i] == b[i];
    } else {
      assert |QueryKey(a)| != |QueryKey(b)|;
      assert |AddKey(a)| != |AddKey(b)|;
      assert |UpdateKey(a)| != |UpdateKey(b)|;
    }
  }

  /** `shouldLoadMore` handed to the scroll hook. */
  predicate ShouldLoadMore(isFetchingNextPage: bool, hasNextPage: bool)
  {
    !isFetchingNextPage && hasNextPage
  }

  /** `isUpdated`: a message is marked edited when its timestamps differ. */
  predicate IsUpdated(m: Message)
  {
    m.updatedAt != m.createdAt
  }

  datatype Status = Pending | Error | Success

  /** What stands above the messages when more pages exist. */
  datatype LoadControl = NoControl | Spinner | LoadButton

  /** The rendered output. `items` is in document order; the column is
      laid out reversed, so the first item appears at the bottom. */
  datatype View =
    | LoadingView
    | ErrorView
    | Blank
    | ChatView(welcome: bool, control: LoadControl, items: seq<Message>)

  /** All items of the loaded pages, page after page. */
  function Items(pages: seq<Response>): (r: seq<Message>)
    ensures pages == [] ==> r == []
  {
    if pages == [] then []
    else
      var last := pages[|pages| - 1];
      Items(pages[..|pages| - 1]) + (if last.Page? then last.items else [])
  }

  /** The component's branches on `status`, `isMounted` and `hasNextPage`. */
  function Render(status: Status, isMounted: bool, hasNextPage: bool, isFetchingNextPage: bool,
                  pages: seq<Response>): (v: View)
    ensures status.Pending? <==> v.LoadingView?
    ensures status.Error? <==> v.ErrorView?
    ensures v.ChatView? <==> status.Success? && isMounted
    ensures v.ChatView? ==> (v.welcome <==> !hasNextPage)
    ensures v.ChatView? ==> (v.control != NoControl <==> hasNextPage)
    ensures v.ChatView? && hasNextPage ==> (v.control == Spinner <==> isFetchingNextPage)
  {
    if status.Pending? then LoadingView
    else if status.Error? then ErrorView
    else if !isMounted then Blank
    else ChatView(
      !hasNextPage,
      if !hasNextPage then NoControl else if isFetchingNextPage then Spinner else LoadButton,
      Items(pages))
  }
}
