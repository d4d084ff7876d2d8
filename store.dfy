/** The rows the core reads and writes, and an in-memory stand-in for the
    relational store behind the ORM. Only the columns the core touches are
    kept; every table is a sequence in insertion order. */
module Store {
  import opened Common

  type Id = string
  type Url = string

  datatype Role = Admin | Moderator | Guest

  /** A profile's membership of one server. */
  datatype Member = Member(id: Id, profileId: Id, role: Role)

  /** `channelType` is None when the row takes the schema's default type. */
  datatype Channel = Channel(id: Id, name: string, channelType: Option<string>, profileId: Id)

  datatype Server = Server(
    id: Id, name: string, imageUrl: Url, inviteCode: string, profileId: Id,
    channels: seq<Channel>, members: seq<Member>)

  /** A channel message. Timestamps are abstract instants. */
  datatype Message = Message(
    id: Id, content: string, fileUrl: Option<Url>, memberId: Id, channelId: Id,
    createdAt: int, updatedAt: int, deleted: bool)

  datatype Conversation = Conversation(id: Id, memberOne: Member, memberTwo: Member)

  datatype DirectMessage = DirectMessage(
    id: Id, content: string, fileUrl: Option<Url>, memberId: Id, conversationId: Id,
    createdAt: int, updatedAt: int, deleted: bool)

  /** An uploaded file as the handlers see it. */
  datatype FileBlob = FileBlob(name: string, mimeType: string, size: nat)

  /** One part of a multipart body, as a browser `FormData` holds it. */
  datatype FormEntry = TextEntry(name: string, value: string) | FileEntry(name: string, file: FileBlob)

  /** `server.members.some(m => m.profileId === profileId)`. */
  predicate HasMember(s: Server, profileId: Id)
  {
    exists m :: m in s.members && m.profileId == profileId
  }

  /** `members.find(m => m.profileId === profileId)`: the first such member. */
  function FindMember(members: seq<Member>, profileId: Id): (r: Option<Member>)
    ensures r.Some? ==>
      exists i :: 0 <= i < |members| && members[i] == r.value && r.value.profileId == profileId &&
        forall j :: 0 <= j < i ==> members[j].profileId != profileId
    ensures r.None? ==> forall m :: m in members ==> m.profileId != profileId
  {
    if members == [] then None
    else if members[0].profileId == profileId then Some(members[0])
    else FindMember(members[1..], profileId)
  }

  /** The database. Handlers read snapshots of its tables and write through
      the `Create...`/`AddChannel` methods, each of which changes one table. */
  class Db {
    var profiles: seq<Id>
    var servers: seq<Server>
    var conversations: seq<Conversation>
    var messages: seq<Message>
    var directMessages: seq<DirectMessage>

    constructor (profiles: seq<Id>, servers: seq<Server>, conversations: seq<Conversation>)
      ensures this.profiles == profiles && this.servers == servers
      ensures this.conversations == conversations
      ensures messages == [] && directMessages == []
    {
      this.profiles, this.servers, this.conversations := profiles, servers, conversations;
      messages, directMessages := [], [];
    }

    /** `db.message.create`. */
    method CreateMessage(m: Message)
      modifies this
      ensures messages == old(messages) + [m]
      ensures profiles == old(profiles) && servers == old(servers)
      ensures conversations == old(conversations) && directMessages == old(directMessages)
    {
      messages := messages + [m];
    }

    /** `db.directMessage.create`. */
    method CreateDirectMessage(dm: DirectMessage)
      modifies this
      ensures directMessages == old(directMessages) + [dm]
      ensures profiles == old(profiles) && servers == old(servers)
      ensures conversations == old(conversations) && messages == old(messages)
    {
      directMessages := directMessages + [dm];
    }

    /** `db.server.create` with its nested channel and member rows. */
    method CreateServer(s: Server)
      modifies this
      ensures servers == old(servers) + [s]
      ensures profiles == old(profiles) && conversations == old(conversations)
      ensures messages == old(messages) && directMessages == old(directMessages)
    {
      servers := servers + [s];
    }

    /** `db.server.update` with a nested `channels.create` on the server at index `i`. */
    method AddChannel(i: nat, c: Channel)
      requires i < |servers|
      modifies this
      ensures servers == old(servers)[i := old(servers)[i].(channels := old(servers)[i].channels + [c])]
      ensures profiles == old(profiles) && conversations == old(conversations)
      ensures messages == old(messages) && directMessages == old(directMessages)
    {
      servers := servers[i := servers[i].(channels := servers[i].channels + [c])];
    }
  }
}
