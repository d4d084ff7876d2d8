/** `handler` of `pages/api/socket/messages/index.ts`: a member posts a
    channel message (caption and/or file); the row is stored and pushed on
    the channel's topic through the live-channel server. */
module MessageIngest {
  import opened Common
  import opened Store
  import opened Presence

  /** What formidable hands back: each field or file name with the list of
      its values, absent when the body has no part of that name. */
  datatype Form = Form(caption: Option<seq<string>>, file: Option<seq<FileBlob>>)

  /** The request: its method, the `serverId`/`channelId` query values and
      the parsed body (None when parsing fails). */
  datatype Request = Request(
    httpMethod: string, serverId: Option<string>, channelId: Option<string>, form: Option<Form>)

  /** The outcome of the guard chain: an early status, or what to store. */
  datatype Decision =
    | Reject(status: nat)
    | Write(member: Member, channelId: Id, content: string, file: Option<FileBlob>)

  /** The text values of the parts named `name`. */
  function TextValues(entries: seq<FormEntry>, name: string): (r: seq<string>)
    ensures |r| <= |entries|
    ensures forall v :: v in r <==> TextEntry(name, v) in entries
    ensures r == [] <==> forall i :: 0 <= i < |entries| ==> !(entries[i].TextEntry? && entries[i].name == name)
    ensures r != [] ==>
      exists i :: 0 <= i < |entries| && entries[i] == TextEntry(name, r[0]) &&
        forall j :: 0 <= j < i ==> !(entries[j].TextEntry? && entries[j].name == name)
  {
    if entries == [] then []
    else
      var head := if entries[0].TextEntry? && entries[0].name == name then [entries[0].value] else [];
      head + TextValues(entries[1..], name)
  }

  /** The files of the parts named `name`. */
  function FileValues(entries: seq<FormEntry>, name: string): (r: seq<FileBlob>)
    ensures |r| <= |entries|
    ensures forall b :: b in r <==> FileEntry(name, b) in entries
    ensures r == [] <==> forall i :: 0 <= i < |entries| ==> !(entries[i].FileEntry? && entries[i].name == name)
    ensures r != [] ==>
      exists i :: 0 <= i < |entries| && entries[i] == FileEntry(name, r[0]) &&
        forall j :: 0 <= j < i ==> !(entries[j].FileEntry? && entries[j].name == name)
  {
    if entries == [] then []
    else
      var head := if entries[0].FileEntry? && entries[0].name == name then [entries[0].file] else [];
      head + FileValues(entries[1..], name)
  }

  /** formidable's view of a multipart body: `fields.caption`, `files.file`. */
  function ParseForm(entries: seq<FormEntry>): (f: Form)
    ensures f.caption.Some? <==> exists i :: 0 <= i < |entries| && entries[i].TextEntry? && entries[i].name == "caption"
    ensures f.file.Some? <==> exists i :: 0 <= i < |entries| && entries[i].FileEntry? && entries[i].name == "file"
    ensures f.caption.Some? ==> f.caption.value != [] && forall v :: v in f.caption.value <==> TextEntry("caption", v) in entries
    ensures f.file.Some? ==> f.file.value != [] && forall b :: b in f.file.value <==> FileEntry("file", b) in entries
  {
    var captions := TextValues(entries, "caption");
    var files := FileValues(entries, "file");
    Form(if captions == [] then None else Some(captions), if files == [] then None else Some(files))
  }

  /** `fields.caption[0] as string || ""`; None when `fields.caption` is
      undefined, where the indexing throws. */
  function CaptionAsWritten(f: Form): (r: Option<string>)
    ensures r.None? <==> f.caption.None?
  {
    match f.caption
    case None => None
    case Some(xs) => Some(if xs == [] then "" else xs[0])
  }

  /** `fields.caption?.[0] || ""`: a missing caption reads as empty. */
  function CaptionCorrected(f: Form): (r: string)
    ensures f.caption.Some? ==> Some(r) == CaptionAsWritten(f)
    ensures f.caption.None? ==> r == ""
  {
    match f.caption
    case None => ""
    case Some(xs) => if xs == [] then "" else xs[0]
  }

  /** `files.file?.[0]`. */
  function UploadedFile(f: Form): (r: Option<FileBlob>)
    ensures r.Some? <==> f.file.Some? && f.file.value != []
    ensures r.Some? ==> r.value in f.file.value
  {
    match f.file
    case None => None
    case Some(xs) => if xs == [] then None else Some(xs[0])
  }

  /** `db.server.findFirst` by id with a member of the given profile. */
  function FindServer(servers: seq<Server>, serverId: Id, profileId: Id): (r: Option<Server>)
    ensures r.Some? ==> r.value in servers && r.value.id == serverId && HasMember(r.value, profileId)
    ensures r.None? ==> forall s :: s in servers && s.id == serverId ==> !HasMember(s, profileId)
  {
    if servers == [] then None
    else if servers[0].id == serverId && HasMember(servers[0], profileId) then Some(servers[0])
    else FindServer(servers[1..], serverId, profileId)
  }

  /** `db.channel.findFirst({where: {id: channelId, serverId}})` finds a row. */
  predicate ChannelInServer(servers: seq<Server>, serverId: Id, channelId: Id)
  {
    exists s :: s in servers && s.id == serverId && exists c :: c in s.channels && c.id == channelId
  }

  /** The guards from the content check on: content or file, membership,
      channel, member. */
  function Authorize(profileId: Id, serverId: Id, channelId: Id, content: string,
                     file: Option<FileBlob>, servers: seq<Server>): (p: Decision)
    ensures p.Reject? ==> p.status in {BAD_REQUEST, NOT_FOUND}
    ensures p == Reject(BAD_REQUEST) <==> content == "" && file.None?
    ensures p.Write? <==> (content != "" || file.Some?) && FindServer(servers, serverId, profileId).Some?
                          && ChannelInServer(servers, serverId, channelId)
    ensures p.Write? ==> p.member.profileId == profileId && p.channelId == channelId
                         && p.content == content && p.file == file
                         && p.member in FindServer(servers, serverId, profileId).value.members
  {
    if content == "" && file.None? then Reject(BAD_REQUEST)
    else match FindServer(servers, serverId, profileId)
      case None => Reject(NOT_FOUND)
      case Some(server) =>
        if !ChannelInServer(servers, serverId, channelId) then Reject(NOT_FOUND)
        else match FindMember(server.members, profileId)
          case None => Reject(UNAUTHORIZED)
          case Some(m) => Write(m, channelId, content, file)
  }

  /** The guard chain as written, up to the upload. `profile` is what
      `currentProfilePage` resolved. */
  function Decide(req: Request, profile: Option<Id>, servers: seq<Server>): (p: Decision)
    ensures p == Reject(METHOD_NOT_ALLOWED) <==> req.httpMethod != "POST"
    ensures p == Reject(UNAUTHORIZED) <==> req.httpMethod == "POST" && profile.None?
    ensures p == Reject(INTERNAL_ERROR) <==>
      && req.httpMethod == "POST" && profile.Some? && Truthy(req.serverId) && Truthy(req.channelId)
      && (req.form.None? || req.form.value.caption.None?)
    ensures p.Reject? ==> p.status in {METHOD_NOT_ALLOWED, UNAUTHORIZED, BAD_REQUEST, NOT_FOUND, INTERNAL_ERROR}
    ensures p == Reject(BAD_REQUEST) <==>
      req.httpMethod == "POST" && profile.Some? &&
      (!Truthy(req.serverId) || !Truthy(req.channelId) ||
       (req.form.Some? && CaptionAsWritten(req.form.value) == Some("") && UploadedFile(req.form.value).None?))
    ensures p.Write? <==>
      && req.httpMethod == "POST" && profile.Some? && Truthy(req.serverId) && Truthy(req.channelId)
      && req.form.Some? && CaptionAsWritten(req.form.value).Some?
      && (CaptionAsWritten(req.form.value) != Some("") || UploadedFile(req.form.value).Some?)
      && FindServer(servers, req.serverId.value, profile.value).Some?
      && ChannelInServer(servers, req.serverId.value, req.channelId.value)
    ensures p.Write? ==>
      && req.httpMethod == "POST" && profile.Some? && Truthy(req.serverId) && Truthy(req.channelId)
      && req.form.Some? && CaptionAsWritten(req.form.value) == Some(p.content)
      && p.file == UploadedFile(req.form.value) && p.channelId == req.channelId.value
      && p.member.profileId == profile.value
      && ChannelInServer(servers, req.serverId.value, req.channelId.value)
      && exists s :: s in servers && s.id == req.serverId.value && p.member in s.members
  {
    if req.httpMethod != "POST" then Reject(METHOD_NOT_ALLOWED)
    else if profile.None? then Reject(UNAUTHORIZED)
    else if !Truthy(req.serverId) then Reject(BAD_REQUEST)
    else if !Truthy(req.channelId) then Reject(BAD_REQUEST)
    else if req.form.None? then Reject(INTERNAL_ERROR)
    else match CaptionAsWritten(req.form.value)
      case None => Reject(INTERNAL_ERROR)
      case Some(content) =>
        Authorize(profile.value, req.serverId.value, req.channelId.value, content,
                  UploadedFile(req.form.value), servers)
  }

  /** The guard chain with `fields.caption?.[0]`, so that a body without a
      caption part is read as an empty caption. */
  function DecideCorrected(req: Request, profile: Option<Id>, servers: seq<Server>): (p: Decision)
    ensures req.form.Some? && req.form.value.caption.Some? ==> p == Decide(req, profile, servers)
    ensures p.Reject? ==> p.status in {METHOD_NOT_ALLOWED, UNAUTHORIZED, BAD_REQUEST, NOT_FOUND, INTERNAL_ERROR}
    ensures p == Reject(METHOD_NOT_ALLOWED) <==> req.httpMethod != "POST"
    ensures p == Reject(UNAUTHORIZED) <==> req.httpMethod == "POST" && profile.None?
    ensures p == Reject(INTERNAL_ERROR) <==>
      req.httpMethod == "POST" && profile.Some? && Truthy(req.serverId) && Truthy(req.channelId)
      && req.form.None?
    ensures p == Reject(BAD_REQUEST) <==>
      req.httpMethod == "POST" && profile.Some? &&
      (!Truthy(req.serverId) || !Truthy(req.channelId) ||
       (req.form.Some? && CaptionCorrected(req.form.value) == "" && UploadedFile(req.form.value).None?))
    ensures p.Write? <==>
      && req.httpMethod == "POST" && profile.Some? && Truthy(req.serverId) && Truthy(req.channelId)
      && req.form.Some? && (CaptionCorrected(req.form.value) != "" || UploadedFile(req.form.value).Some?)
      && FindServer(servers, req.serverId.value, profile.value).Some?
      && ChannelInServer(servers, req.serverId.value, req.channelId.value)
    ensures p.Write? ==>
      && req.form.Some? && p.content == CaptionCorrected(req.form.value)
      && p.file == UploadedFile(req.form.value) && p.channelId == req.channelId.value
      && p.member.profileId == profile.value
      && exists s :: s in servers && s.id == req.serverId.value && p.member in s.members
  {
    if req.httpMethod != "POST" then Reject(METHOD_NOT_ALLOWED)
    else if profile.None? then Reject(UNAUTHORIZED)
    else if !Truthy(req.serverId) then Reject(BAD_REQUEST)
    else if !Truthy(req.channelId) then Reject(BAD_REQUEST)
    else if req.form.None? then Reject(INTERNAL_ERROR)
    else Authorize(profile.value, req.serverId.value, req.channelId.value,
                   CaptionCorrected(req.form.value), UploadedFile(req.form.value), servers)
  }

  /** The topic the stored message is emitted on. */
  function ChannelKey(channelId: Id): string
  {
    "chat:" + channelId + ":messages"
  }

  /** The file is sent to the media host only when there is one and the host is configured. */
  predicate Uploads(p: Decision, configured: bool)
    requires p.Write?
  {
    p.file.Some? && configured
  }

  /** `fileUrl`: the upload's URL, or null when nothing was uploaded. */
  function FileUrl(p: Decision, configured: bool, upload: FileBlob -> Option<Url>): (r: Option<Url>)
    requires p.Write?
    ensures Uploads(p, configured) ==> r == upload(p.file.value)
    ensures !Uploads(p, configured) ==> r.None?
  {
    if Uploads(p, configured) then upload(p.file.value) else None
  }

  /** The row `db.message.create` stores. Neither timestamp is written by
      the handler: `createdAt` and `updatedAt` are the store's column
      defaults, passed in as the instants the store picks for them. */
  function NewRow(p: Decision, fileUrl: Option<Url>, id: Id, createdAt: int, updatedAt: int): (m: Message)
    requires p.Write?
    ensures m.id == id && m.memberId == p.member.id && m.channelId == p.channelId && m.content == p.content
    ensures m.fileUrl == fileUrl && m.createdAt == createdAt && m.updatedAt == updatedAt && !m.deleted
  {
    Message(id, p.content, fileUrl, p.member.id, p.channelId, createdAt, updatedAt, false)
  }

  /** What the handler does once the guard chain has decided: the upload,
      the insert and the emit. `configured` is `isCloudinaryConfigured()`,
      `upload` the media host (None: the upload throws), `id`, `createdAt`
      and `updatedAt` what the store fills in. The emit goes through
      `res.socket.server.io`, which throws after the row is written when no
      server is attached. */
  method Perform(db: Db, io: SocketHost, p: Decision, configured: bool,
                 upload: FileBlob -> Option<Url>, id: Id, createdAt: int, updatedAt: int)
    returns (status: nat)
    requires io.Valid()
    modifies db, io
    ensures io.Valid() && io.attached == old(io.attached) && io.online == old(io.online)
    ensures db.profiles == old(db.profiles) && db.servers == old(db.servers)
    ensures db.conversations == old(db.conversations) && db.directMessages == old(db.directMessages)
    ensures p.Reject? ==> status == p.status && db.messages == old(db.messages) && io.emitted == old(io.emitted)
    ensures p.Write? && Uploads(p, configured) && upload(p.file.value).None? ==>
      status == INTERNAL_ERROR && db.messages == old(db.messages) && io.emitted == old(io.emitted)
    ensures p.Write? && !(Uploads(p, configured) && upload(p.file.value).None?) ==>
      var m := NewRow(p, FileUrl(p, configured, upload), id, createdAt, updatedAt);
      && db.messages == old(db.messages) + [m]
      && (old(io.attached) ==>
            status == OK && io.emitted == old(io.emitted) + [Emission(ChannelKey(p.channelId), NewMessage(m))])
      && (!old(io.attached) ==> status == INTERNAL_ERROR && io.emitted == old(io.emitted))
  {
    if p.Reject? {
      return p.status;
    }
    var fileUrl: Option<Url> := None;
    if p.file.Some? && configured {
      var result := upload(p.file.value);
      if result.None? {
        return INTERNAL_ERROR;
      }
      fileUrl := result;
    }
    var message := NewRow(p, fileUrl, id, createdAt, updatedAt);
    db.CreateMessage(message);
    if !io.attached {
      return INTERNAL_ERROR;
    }
    io.Emit(ChannelKey(p.channelId), NewMessage(message));
    status := OK;
  }

  /** The handler as written: the guard chain `Decide`, then `Perform`. */
  method Handle(db: Db, io: SocketHost, req: Request, profile: Option<Id>, configured: bool,
                upload: FileBlob -> Option<Url>, id: Id, createdAt: int, updatedAt: int)
    returns (status: nat)
    requires io.Valid()
    modifies db, io
    ensures io.Valid() && io.attached == old(io.attached) && io.online == old(io.online)
    ensures db.profiles == old(db.profiles) && db.servers == old(db.servers)
    ensures db.conversations == old(db.conversations) && db.directMessages == old(db.directMessages)
    ensures var p := Decide(req, profile, old(db.servers));
      p.Reject? ==> status == p.status && db.messages == old(db.messages) && io.emitted == old(io.emitted)
    ensures var p := Decide(req, profile, old(db.servers));
      p.Write? && Uploads(p, configured) && upload(p.file.value).None? ==>
        status == INTERNAL_ERROR && db.messages == old(db.messages) && io.emitted == old(io.emitted)
    ensures var p := Decide(req, profile, old(db.servers));
      p.Write? && !(Uploads(p, configured) && upload(p.file.value).None?) ==>
        var m := NewRow(p, FileUrl(p, configured, upload), id, createdAt, updatedAt);
        && db.messages == old(db.messages) + [m]
        && (old(io.attached) ==>
              status == OK && io.emitted == old(io.emitted) + [Emission(ChannelKey(p.channelId), NewMessage(m))])
        && (!old(io.attached) ==> status == INTERNAL_ERROR && io.emitted == old(io.emitted))
  {
    var p := Decide(req, profile, db.servers);
    status := Perform(db, io, p, configured, upload, id, createdAt, updatedAt);
  }

  /** The handler with the corrected caption read `DecideCorrected`, so that
      a file sent without a caption part is stored. */
  method HandleCorrected(db: Db, io: SocketHost, req: Request, profile: Option<Id>, configured: bool,
                         upload: FileBlob -> Option<Url>, id: Id, createdAt: int, updatedAt: int)
    returns (status: nat)
    requires io.Valid()
    modifies db, io
    ensures io.Valid() && io.attached == old(io.attached) && io.online == old(io.online)
    ensures db.profiles == old(db.profiles) && db.servers == old(db.servers)
    ensures db.conversations == old(db.conversations) && db.directMessages == old(db.directMessages)
    ensures var p := DecideCorrected(req, profile, old(db.servers));
      p.Reject? ==> status == p.status && db.messages == old(db.messages) && io.emitted == old(io.emitted)
    ensures var p := DecideCorrected(req, profile, old(db.servers));
      p.Write? && Uploads(p, configured) && upload(p.file.value).None? ==>
        status == INTERNAL_ERROR && db.messages == old(db.messages) && io.emitted == old(io.emitted)
    ensures var p := DecideCorrected(req, profile, old(db.servers));
      p.Write? && !(Uploads(p, configured) && upload(p.file.value).None?) ==>
        var m := NewRow(p, FileUrl(p, configured, upload), id, createdAt, updatedAt);
        && db.messages == old(db.messages) + [m]
        && (old(io.attached) ==>
              status == OK && io.emitted == old(io.emitted) + [Emission(ChannelKey(p.channelId), NewMessage(m))])
        && (!old(io.attached) ==> status == INTERNAL_ERROR && io.emitted == old(io.emitted))
  {
    var p := DecideCorrected(req, profile, db.servers);
    status := Perform(db, io, p, configured, upload, id, createdAt, updatedAt);
  }

  /** The values of a name come in the order of the body's parts. */
  lemma {:induction false} TextValuesAppend(a: seq<FormEntry>, b: seq<FormEntry>, name: string)
    ensures TextValues(a + b, name) == TextValues(a, name) + TextValues(b, name)
  {
    if a == [] {
      assert a + b == b;
    } else {
      assert (a + b)[0] == a[0];
      assert (a + b)[1..] == a[1..] + b;
      TextValuesAppend(a[1..], b, name);
    }
  }

  /** The files of a name come in the order of the body's parts. */
  lemma {:induction false} FileValuesAppend(a: seq<FormEntry>, b: seq<FormEntry>, name: string)
    ensures FileValues(a + b, name) == FileValues(a, name) + FileValues(b, name)
  {
    if a == [] {
      assert a + b == b;
    } else {
      assert (a + b)[0] == a[0];
      assert (a + b)[1..] == a[1..] + b;
      FileValuesAppend(a[1..], b, name);
    }
  }

  /** A missing caption part is a 500 even when a file is attached. */
  lemma MissingCaptionFails(req: Request, profile: Id, servers: seq<Server>)
    requires req.httpMethod == "POST" && Truthy(req.serverId) && Truthy(req.channelId)
    requires req.form.Some? && req.form.value.caption.None?
    ensures Decide(req, Some(profile), servers) == Reject(INTERNAL_ERROR)
  {
  }

  /** The member 401 after the membership lookup cannot happen: a 401 only
      ever means that no profile was resolved. */
  lemma MemberGuardUnreachable(req: Request, profile: Option<Id>, servers: seq<Server>)
    requires Decide(req, profile, servers).Reject? && Decide(req, profile, servers).status == UNAUTHORIZED
    ensures profile.None?
  {
  }
}
