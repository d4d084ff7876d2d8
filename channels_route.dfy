/** `POST` of `app/api/channels/route.ts`: an ADMIN or MODERATOR of a
    server adds a channel to it. */
module ChannelsRoute {
  import opened Common
  import opened Store

  /** The JSON body's `name` and `type`. */
  datatype Body = Body(name: Option<string>, channelType: Option<string>)

  /** `req.json()` (None when it throws) and the `serverId` query value. */
  datatype Request = Request(body: Option<Body>, serverId: Option<string>)

  datatype Precheck =
    | Reject(status: nat)
    | Proceed(profileId: Id, serverId: Id, name: string, channelType: string)

  /** The name every server's default channel has, which no other channel may take. */
  const GENERAL: string := "general"

  /** The validation chain. The profile is resolved and the body read before
      any check, so an unreadable body is a 500 whatever the profile. */
  function Check(req: Request, profile: Option<Id>): (c: Precheck)
    ensures c == Reject(INTERNAL_ERROR) <==> req.body.None?
    ensures c == Reject(UNAUTHORIZED) <==> req.body.Some? && profile.None?
    ensures c == Reject(BAD_REQUEST) <==>
      req.body.Some? && profile.Some? &&
      (!Truthy(req.serverId) || !Truthy(req.body.value.name) || req.body.value.name == Some(GENERAL)
       || !Truthy(req.body.value.channelType))
    ensures c.Proceed? ==>
      && profile == Some(c.profileId) && req.serverId == Some(c.serverId)
      && req.body.value.name == Some(c.name) && req.body.value.channelType == Some(c.channelType)
      && c.serverId != "" && c.name != "" && c.name != GENERAL && c.channelType != ""
  {
    if req.body.None? then Reject(INTERNAL_ERROR)
    else
      var body := req.body.value;
      if profile.None? then Reject(UNAUTHORIZED)
      else if !Truthy(req.serverId) then Reject(BAD_REQUEST)
      else if !Truthy(body.name) then Reject(BAD_REQUEST)
      else if body.name.value == GENERAL then Reject(BAD_REQUEST)
      else if !Truthy(body.channelType) then Reject(BAD_REQUEST)
      else Proceed(profile.value, req.serverId.value, body.name.value, body.channelType.value)
  }

  /** The values of the store's `ChannelType` enum. */
  const CHANNEL_TYPES: seq<string> := ["TEXT", "AUDIO", "VIDEO"]

  /** The store validates `type` against the enum before running the update;
      any other string makes `db.server.update` throw. */
  predicate KnownType(channelType: string)
  {
    channelType in CHANNEL_TYPES
  }

  /** `include: {channels: true}`: the server's own columns and its channels,
      without the members. */
  datatype ServerWithChannels = ServerWithChannels(
    id: Id, name: string, imageUrl: Url, inviteCode: string, profileId: Id, channels: seq<Channel>)

  /** The server row as the update returns it. */
  function WithChannels(s: Server): (r: ServerWithChannels)
    ensures r.id == s.id && r.name == s.name && r.imageUrl == s.imageUrl
    ensures r.inviteCode == s.inviteCode && r.profileId == s.profileId && r.channels == s.channels
  {
    ServerWithChannels(s.id, s.name, s.imageUrl, s.inviteCode, s.profileId, s.channels)
  }

  /** The profile is a member of the server with role ADMIN or MODERATOR. */
  predicate CanManage(s: Server, profileId: Id)
  {
    exists m :: m in s.members && m.profileId == profileId && (m.role == Admin || m.role == Moderator)
  }

  /** The row `db.server.update`'s `where` selects: the server with that id
      having a managing member of the profile. */
  function Target(servers: seq<Server>, serverId: Id, profileId: Id): (r: Option<nat>)
    ensures r.Some? ==> r.value < |servers| && servers[r.value].id == serverId
                        && CanManage(servers[r.value], profileId)
    ensures r.None? ==> forall i :: 0 <= i < |servers| && servers[i].id == serverId
                                    ==> !CanManage(servers[i], profileId)
  {
    if servers == [] then None
    else if servers[0].id == serverId && CanManage(servers[0], profileId) then Some(0)
    else match Target(servers[1..], serverId, profileId)
      case None => None
      case Some(i) => Some(i + 1)
  }

  /** The route. `channelId` is the store's fresh id for the new channel.
      When the type is not one of the enum's values, or no row matches, the
      update throws and the answer is a 500. On success the updated server's
      columns and all its channels are returned. */
  method Post(db: Db, req: Request, profile: Option<Id>, channelId: Id)
    returns (status: nat, updated: Option<ServerWithChannels>)
    modifies db
    ensures db.profiles == old(db.profiles) && db.conversations == old(db.conversations)
    ensures db.messages == old(db.messages) && db.directMessages == old(db.directMessages)
    ensures var c := Check(req, profile);
      c.Reject? ==> status == c.status && updated.None? && db.servers == old(db.servers)
    ensures var c := Check(req, profile);
      c.Proceed? && !KnownType(c.channelType) ==>
        status == INTERNAL_ERROR && updated.None? && db.servers == old(db.servers)
    ensures var c := Check(req, profile);
      c.Proceed? && Target(old(db.servers), c.serverId, c.profileId).None? ==>
        status == INTERNAL_ERROR && updated.None? && db.servers == old(db.servers)
    ensures var c := Check(req, profile);
      c.Proceed? && KnownType(c.channelType) && Target(old(db.servers), c.serverId, c.profileId).Some? ==>
        var i := Target(old(db.servers), c.serverId, c.profileId).value;
        var s := old(db.servers)[i];
        var ch := Channel(channelId, c.name, Some(c.channelType), c.profileId);
        && status == OK
        && db.servers == old(db.servers)[i := s.(channels := s.channels + [ch])]
        && updated == Some(WithChannels(db.servers[i]))
  {
    var c := Check(req, profile);
    if c.Reject? {
      return c.status, None;
    }
    if !KnownType(c.channelType) {
      return INTERNAL_ERROR, None;
    }
    var target := Target(db.servers, c.serverId, c.profileId);
    if target.None? {
      return INTERNAL_ERROR, None;
    }
    db.AddChannel(target.value, Channel(channelId, c.name, Some(c.channelType), c.profileId));
    status, updated := OK, Some(WithChannels(db.servers[target.value]));
  }

  /** The reserved-name rule is exact string equality: any other name,
      "General" included, passes it. */
  lemma {:induction false} GeneralRuleIsExact(req: Request, profile: Id)
    requires req.body.Some? && Truthy(req.serverId) && Truthy(req.body.value.channelType)
    requires Truthy(req.body.value.name)
    ensures Check(req, Some(profile)).Proceed? <==> req.body.value.name.value != GENERAL
  {
  }
}
