/** `handler` of `pages/api/socket/direct-messages/index.ts`: one of the two
    members of a conversation posts a direct message (content and/or one
    file). The file is uploaded before the conversation is looked up, and
    nothing is emitted on the live channel. */
module DirectMessageIngest {
  import opened Common
  import opened Store

  /** multer's `limits.fileSize`: 10 MB. */
  const FILE_SIZE_LIMIT: nat := 10 * 1024 * 1024

  /** What multer leaves on the request: `body.content` and `file`. */
  datatype Body = Body(content: Option<string>, file: Option<FileBlob>)

  /** The request: method, multer's result (None when the body cannot be
      parsed) and the `conversationId` query value. */
  datatype Request = Request(httpMethod: string, body: Option<Body>, conversationId: Option<string>)

  /** The checks before the upload. */
  datatype Precheck =
    | Reject(status: nat)
    | Proceed(profileId: Id, conversationId: Id, content: string, file: Option<FileBlob>)

  /** multer fails on a malformed body and on a file over the size limit. */
  predicate ParseFails(req: Request)
  {
    req.body.None? || (req.body.value.file.Some? && req.body.value.file.value.size > FILE_SIZE_LIMIT)
  }

  /** Guards up to the profile lookup. `sessionUser` is `session.user.id`
      (None when there is no session or no user on it); `profiles` the
      profile table's ids. */
  function Check(req: Request, sessionUser: Option<Id>, profiles: seq<Id>): (c: Precheck)
    ensures c.Reject? ==> c.status in {METHOD_NOT_ALLOWED, INTERNAL_ERROR, UNAUTHORIZED, BAD_REQUEST}
    ensures c == Reject(METHOD_NOT_ALLOWED) <==> req.httpMethod != "POST"
    ensures c == Reject(INTERNAL_ERROR) <==> req.httpMethod == "POST" && ParseFails(req)
    ensures c == Reject(UNAUTHORIZED) <==>
      req.httpMethod == "POST" && !ParseFails(req) &&
      (sessionUser.None? ||
       (Truthy(req.conversationId) && (OrEmpty(req.body.value.content) != "" || req.body.value.file.Some?)
        && sessionUser.value !in profiles))
    ensures c == Reject(BAD_REQUEST) <==>
      req.httpMethod == "POST" && !ParseFails(req) && sessionUser.Some? &&
      (!Truthy(req.conversationId) || (OrEmpty(req.body.value.content) == "" && req.body.value.file.None?))
    ensures c.Proceed? ==>
      && req.httpMethod == "POST" && !ParseFails(req)
      && sessionUser == Some(c.profileId) && c.profileId in profiles
      && req.conversationId == Some(c.conversationId) && c.conversationId != ""
      && c.content == OrEmpty(req.body.value.content) && c.file == req.body.value.file
      && (c.content != "" || c.file.Some?)
  {
    if req.httpMethod != "POST" then Reject(METHOD_NOT_ALLOWED)
    else if ParseFails(req) then Reject(INTERNAL_ERROR)
    else
      var content := OrEmpty(req.body.value.content);
      var file := req.body.value.file;
      if sessionUser.None? then Reject(UNAUTHORIZED)
      else if !Truthy(req.conversationId) then Reject(BAD_REQUEST)
      else if content == "" && file.None? then Reject(BAD_REQUEST)
      else if sessionUser.value !in profiles then Reject(UNAUTHORIZED)
      else Proceed(sessionUser.value, req.conversationId.value, content, file)
  }

  /** The profile is one of the conversation's two members. */
  predicate Involves(c: Conversation, profileId: Id)
  {
    c.memberOne.profileId == profileId || c.memberTwo.profileId == profileId
  }

  /** `db.conversation.findFirst` by id where the profile is `memberOne` or `memberTwo`. */
  function FindConversation(cs: seq<Conversation>, id: Id, profileId: Id): (r: Option<Conversation>)
    ensures r.Some? ==> r.value in cs && r.value.id == id && Involves(r.value, profileId)
    ensures r.None? ==> forall c :: c in cs && c.id == id ==> !Involves(c, profileId)
  {
    if cs == [] then None
    else if cs[0].id == id && Involves(cs[0], profileId) then Some(cs[0])
    else FindConversation(cs[1..], id, profileId)
  }

  /** The ternary at lines 135-137: `memberOne` when it is the requester's, else `memberTwo`. */
  function ActingMember(c: Conversation, profileId: Id): (m: Member)
    requires Involves(c, profileId)
    ensures m.profileId == profileId
    ensures m == c.memberOne || m == c.memberTwo
    ensures c.memberOne.profileId == profileId ==> m == c.memberOne
  {
    if c.memberOne.profileId == profileId then c.memberOne else c.memberTwo
  }

  /** The row `db.directMessage.create` stores; the timestamps are the
      store's column defaults, passed in. */
  function NewRow(c: Precheck, member: Member, fileUrl: Option<Url>, id: Id, createdAt: int, updatedAt: int): (dm: DirectMessage)
    requires c.Proceed?
    ensures dm.id == id && dm.content == c.content && dm.fileUrl == fileUrl && dm.memberId == member.id
    ensures dm.conversationId == c.conversationId && dm.createdAt == createdAt && dm.updatedAt == updatedAt
    ensures !dm.deleted
  {
    DirectMessage(id, c.content, fileUrl, member.id, c.conversationId, createdAt, updatedAt, false)
  }

  /** The handler. `upload` is the media host (None: it throws); `sent` is the
      file handed to it, if any. The live channel is not touched. */
  method Handle(db: Db, req: Request, sessionUser: Option<Id>, upload: FileBlob -> Option<Url>,
                id: Id, createdAt: int, updatedAt: int) returns (status: nat, sent: Option<FileBlob>)
    modifies db
    ensures db.profiles == old(db.profiles) && db.servers == old(db.servers)
    ensures db.conversations == old(db.conversations) && db.messages == old(db.messages)
    ensures var c := Check(req, sessionUser, old(db.profiles));
      c.Reject? ==> status == c.status && sent.None? && db.directMessages == old(db.directMessages)
    ensures var c := Check(req, sessionUser, old(db.profiles));
      c.Proceed? ==> sent == c.file
    ensures var c := Check(req, sessionUser, old(db.profiles));
      c.Proceed? && c.file.Some? && upload(c.file.value).None? ==>
        status == INTERNAL_ERROR && db.directMessages == old(db.directMessages)
    ensures var c := Check(req, sessionUser, old(db.profiles));
      c.Proceed? && !(c.file.Some? && upload(c.file.value).None?) ==>
        var conv := FindConversation(db.conversations, c.conversationId, c.profileId);
        && (conv.None? ==> status == NOT_FOUND && db.directMessages == old(db.directMessages))
        && (conv.Some? ==>
              var url := if c.file.Some? then upload(c.file.value) else None;
              status == OK &&
              db.directMessages == old(db.directMessages)
                + [NewRow(c, ActingMember(conv.value, c.profileId), url, id, createdAt, updatedAt)])
  {
    sent := None;
    var c := Check(req, sessionUser, db.profiles);
    if c.Reject? {
      return c.status, sent;
    }
    var fileUrl: Option<Url> := None;
    if c.file.Some? {
      sent := c.file;
      var result := upload(c.file.value);
      if result.None? {
        return INTERNAL_ERROR, sent;
      }
      fileUrl := result;
    }
    var conversation := FindConversation(db.conversations, c.conversationId, c.profileId);
    if conversation.None? {
      return NOT_FOUND, sent;
    }
    var member := ActingMember(conversation.value, c.profileId);
    db.CreateDirectMessage(NewRow(c, member, fileUrl, id, createdAt, updatedAt));
    status := OK;
  }
}
