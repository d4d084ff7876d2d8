/** `POST` of `app/api/servers/route.ts`: a signed-in profile creates a
    server from a name and an image; the server starts with one "general"
    channel and its creator as its one ADMIN member. */
module ServersRoute {
  import opened Common
  import opened Store

  /** `formData.get('name')?.toString()` and `formData.getAll('imageUrl')`. */
  datatype Form = Form(name: Option<string>, images: seq<FileBlob>)

  datatype Precheck =
    | Reject(status: nat)
    | Proceed(profileId: Id, name: string, image: FileBlob)

  /** `req.formData()` (None when it throws), then the data check, and only
      then the profile. */
  function Check(form: Option<Form>, profile: Option<Id>): (c: Precheck)
    ensures c.Reject? ==> c.status in {INTERNAL_ERROR, BAD_REQUEST, UNAUTHORIZED}
    ensures c == Reject(INTERNAL_ERROR) <==> form.None?
    ensures c == Reject(BAD_REQUEST) <==> form.Some? && (!Truthy(form.value.name) || form.value.images == [])
    ensures c == Reject(UNAUTHORIZED) <==>
      form.Some? && Truthy(form.value.name) && form.value.images != [] && profile.None?
    ensures c.Proceed? ==>
      form.Some? && profile == Some(c.profileId) && form.value.name == Some(c.name) && c.name != ""
      && form.value.images != [] && c.image == form.value.images[0]
  {
    if form.None? then Reject(INTERNAL_ERROR)
    else if !Truthy(form.value.name) || form.value.images == [] then Reject(BAD_REQUEST)
    else if profile.None? then Reject(UNAUTHORIZED)
    else Proceed(profile.value, form.value.name.value, form.value.images[0])
  }

  /** The row `db.server.create` stores with its nested channel and member. */
  function NewServer(c: Precheck, imageUrl: Url, serverId: Id, inviteCode: string,
                     channelId: Id, memberId: Id): (s: Server)
    requires c.Proceed?
    ensures s.id == serverId && s.name == c.name && s.imageUrl == imageUrl
    ensures s.inviteCode == inviteCode && s.profileId == c.profileId
    ensures |s.channels| == 1 && s.channels[0].name == "general" && s.channels[0].profileId == c.profileId
    ensures |s.members| == 1 && s.members[0].profileId == c.profileId && s.members[0].role == Admin
  {
    Server(serverId, c.name, imageUrl, inviteCode, c.profileId,
           [Channel(channelId, "general", None, c.profileId)],
           [Member(memberId, c.profileId, Admin)])
  }

  /** The route. `upload` is the media host (None: it fails); the remaining
      parameters are fresh ids and the fresh invite code (`uuidv4()`). */
  method Post(db: Db, form: Option<Form>, profile: Option<Id>, upload: FileBlob -> Option<Url>,
              serverId: Id, inviteCode: string, channelId: Id, memberId: Id)
    returns (status: nat, created: Option<Server>)
    modifies db
    ensures db.profiles == old(db.profiles) && db.conversations == old(db.conversations)
    ensures db.messages == old(db.messages) && db.directMessages == old(db.directMessages)
    ensures var c := Check(form, profile);
      c.Reject? ==> status == c.status && created.None? && db.servers == old(db.servers)
    ensures var c := Check(form, profile);
      c.Proceed? && upload(c.image).None? ==>
        status == INTERNAL_ERROR && created.None? && db.servers == old(db.servers)
    ensures var c := Check(form, profile);
      c.Proceed? && upload(c.image).Some? ==>
        var s := NewServer(c, upload(c.image).value, serverId, inviteCode, channelId, memberId);
        status == CREATED && created == Some(s) && db.servers == old(db.servers) + [s]
  {
    var c := Check(form, profile);
    if c.Reject? {
      return c.status, None;
    }
    var uploaded := upload(c.image);
    if uploaded.None? {
      return INTERNAL_ERROR, None;
    }
    var s := NewServer(c, uploaded.value, serverId, inviteCode, channelId, memberId);
    db.CreateServer(s);
    status, created := CREATED, Some(s);
  }

  /** Only the first image is ever uploaded: the later ones do not change the outcome. */
  lemma OnlyFirstImageUsed(name: Option<string>, first: FileBlob, rest1: seq<FileBlob>,
                           rest2: seq<FileBlob>, profile: Option<Id>)
    ensures Check(Some(Form(name, [first] + rest1)), profile) == Check(Some(Form(name, [first] + rest2)), profile)
  {
  }
}
