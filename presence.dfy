/** The live-channel server of `pages/api/socket/io.ts`: the module-level
    `onlineUsers` map (JavaScript `Map`, so insertion-ordered), the
    `user-online` and `disconnect` handlers registered on every connection,
    and the lazy attach of one Socket.IO server to the host HTTP server. */
module Presence {
  import opened Common
  import opened Store

  type UserId = string
  type SocketId = string
  type Entry = (UserId, SocketId)

  /** What an `io.emit` carries: the presence broadcast or a stored message. */
  datatype Payload = OnlineUsers(users: seq<UserId>) | NewMessage(message: Message)

  /** One `io.emit(event, payload)`, delivered to every connected client. */
  datatype Emission = Emission(event: string, payload: Payload)

  const ONLINE_USERS: string := "online-users"

  // ---------------------------------------------------------------------
  // The insertion-ordered map as a sequence of entries

  /** `Array.from(map.keys())`. */
  function Keys(e: seq<Entry>): (ks: seq<UserId>)
    ensures |ks| == |e|
    ensures forall i :: 0 <= i < |e| ==> ks[i] == e[i].0
  {
    if e == [] then [] else [e[0].0] + Keys(e[1..])
  }

  /** A `Map` never holds one key twice. */
  ghost predicate DistinctKeys(e: seq<Entry>)
  {
    forall i, j :: 0 <= i < j < |e| ==> e[i].0 != e[j].0
  }

  /** `map.get(u)`. */
  function Lookup(e: seq<Entry>, u: UserId): Option<SocketId>
  {
    if e == [] then None else if e[0].0 == u then Some(e[0].1) else Lookup(e[1..], u)
  }

  /** `map.set(u, s)`: an existing key keeps its place and gets the new value;
      a new key goes to the end. */
  function MapSet(e: seq<Entry>, u: UserId, s: SocketId): (r: seq<Entry>)
    ensures |r| == |e| || |r| == |e| + 1
  {
    if e == [] then [(u, s)]
    else if e[0].0 == u then [(u, s)] + e[1..]
    else [e[0]] + MapSet(e[1..], u, s)
  }

  /** The loop of the `disconnect` handler: walk the entries in insertion
      order and delete the first one whose value is `s`, then stop. */
  function DeleteFirstWithValue(e: seq<Entry>, s: SocketId): (r: seq<Entry>)
    ensures |r| == |e| || |r| == |e| - 1
  {
    if e == [] then []
    else if e[0].1 == s then e[1..]
    else [e[0]] + DeleteFirstWithValue(e[1..], s)
  }

  // ---------------------------------------------------------------------
  // Properties of `set`

  /** After `set(u, s)` the user maps to `s`; every other user keeps its value. */
  lemma {:induction false} SetLookup(e: seq<Entry>, u: UserId, s: SocketId, v: UserId)
    ensures Lookup(MapSet(e, u, s), v) == if v == u then Some(s) else Lookup(e, v)
  {
    if e != [] && e[0].0 != u {
      SetLookup(e[1..], u, s, v);
    }
  }

  /** `set` on a key already present replaces that one entry in place: the
      other entries and the order are untouched. */
  lemma {:induction false} SetExistingInPlace(e: seq<Entry>, u: UserId, s: SocketId, i: nat)
    requires DistinctKeys(e)
    requires i < |e| && e[i].0 == u
    ensures MapSet(e, u, s) == e[i := (u, s)]
  {
    if i > 0 {
      assert e[0].0 != u;
      SetExistingInPlace(e[1..], u, s, i - 1);
      assert e[1..][i - 1 := (u, s)] == e[i := (u, s)][1..];
    }
  }

  /** `set` on a new key appends it. */
  lemma {:induction false} SetNewAppends(e: seq<Entry>, u: UserId, s: SocketId)
    requires forall i :: 0 <= i < |e| ==> e[i].0 != u
    ensures MapSet(e, u, s) == e + [(u, s)]
  {
    if e != [] {
      SetNewAppends(e[1..], u, s);
      assert e == [e[0]] + e[1..];
    }
  }

  /** `set` keeps every user to at most one entry, and the broadcast key list
      gains the user at the end only when it was not online before. */
  lemma SetKeepsKeysDistinct(e: seq<Entry>, u: UserId, s: SocketId)
    requires DistinctKeys(e)
    ensures DistinctKeys(MapSet(e, u, s))
    ensures u in Keys(e) ==> Keys(MapSet(e, u, s)) == Keys(e)
    ensures u !in Keys(e) ==> Keys(MapSet(e, u, s)) == Keys(e) + [u]
  {
    if u in Keys(e) {
      var i :| 0 <= i < |e| && Keys(e)[i] == u;
      SetExistingInPlace(e, u, s, i);
      ReplaceKeepsKeys(e, i, (u, s));
    } else {
      assert forall i :: 0 <= i < |e| ==> e[i].0 != u by {
        forall i | 0 <= i < |e| ensures e[i].0 != u { assert Keys(e)[i] == e[i].0; }
      }
      SetNewAppends(e, u, s);
      assert Keys(e + [(u, s)]) == Keys(e) + [u];
    }
  }

  /** Replacing an entry by one with the same key keeps the key list. */
  lemma ReplaceKeepsKeys(e: seq<Entry>, i: nat, x: Entry)
    requires i < |e| && e[i].0 == x.0
    ensures Keys(e[i := x]) == Keys(e)
  {
    assert forall k :: 0 <= k < |e| ==> Keys(e[i := x])[k] == Keys(e)[k];
  }

  // ---------------------------------------------------------------------
  // Properties of the disconnect loop

  /** The loop removes exactly the first entry whose value is `s`. */
  lemma {:induction false} DeleteFirstMatch(e: seq<Entry>, s: SocketId, i: nat)
    requires i < |e| && e[i].1 == s
    requires forall j :: 0 <= j < i ==> e[j].1 != s
    ensures DeleteFirstWithValue(e, s) == e[..i] + e[i + 1..]
  {
    if i > 0 {
      DeleteFirstMatch(e[1..], s, i - 1);
      assert e[1..][..i - 1] + e[1..][i..] == (e[..i] + e[i + 1..])[1..];
    }
  }

  /** A socket that no entry maps to removes nothing. */
  lemma {:induction false} DeleteNoMatch(e: seq<Entry>, s: SocketId)
    requires forall j :: 0 <= j < |e| ==> e[j].1 != s
    ensures DeleteFirstWithValue(e, s) == e
  {
    if e != [] {
      DeleteNoMatch(e[1..], s);
      assert e == [e[0]] + e[1..];
    }
  }

  /** Removing one entry keeps the keys distinct. */
  lemma DeleteKeepsKeysDistinct(e: seq<Entry>, s: SocketId)
    requires DistinctKeys(e)
    ensures DistinctKeys(DeleteFirstWithValue(e, s))
  {
    if k :| 0 <= k < |e| && e[k].1 == s {
      var i := FirstIndex(e, s, k);
      DeleteFirstMatch(e, s, i);
      var r := e[..i] + e[i + 1..];
      forall a, b | 0 <= a < b < |r| ensures r[a].0 != r[b].0 {
        var a' := if a < i then a else a + 1;
        var b' := if b < i then b else b + 1;
        assert r[a] == e[a'] && r[b] == e[b'];
      }
    } else {
      DeleteNoMatch(e, s);
    }
  }

  /** If some entry has value `s`, a first such entry exists. */
  lemma {:induction false} FirstMatchExists(e: seq<Entry>, s: SocketId, k: nat)
    requires k < |e| && e[k].1 == s
    ensures exists i :: 0 <= i <= k && e[i].1 == s && forall j :: 0 <= j < i ==> e[j].1 != s
  {
    if forall j :: 0 <= j < k ==> e[j].1 != s {
    } else {
      var j :| 0 <= j < k && e[j].1 == s;
      FirstMatchExists(e, s, j);
    }
  }

  /** A user re-registered on socket B stays online when its old socket A
      disconnects: the old socket no longer maps to anybody. */
  lemma {:induction false} StaleDisconnectKeepsUser(e: seq<Entry>, u: UserId, a: SocketId, b: SocketId)
    requires Lookup(e, u) == Some(b) && a != b
    ensures Lookup(DeleteFirstWithValue(e, a), u) == Some(b)
  {
    if e[0].0 != u {
      StaleDisconnectKeepsUser(e[1..], u, a, b);
    }
  }

  /** One socket that registered two user ids: a single disconnect takes
      away only the first of them, the second stays mapped to the socket. */
  lemma {:induction false} SharedSocketDisconnect(e: seq<Entry>, s: SocketId, i: nat, j: nat)
    requires DistinctKeys(e)
    requires i < j < |e| && e[i].1 == s && e[j].1 == s
    requires forall k :: 0 <= k < i ==> e[k].1 != s
    ensures Lookup(DeleteFirstWithValue(e, s), e[i].0) == None
    ensures Lookup(DeleteFirstWithValue(e, s), e[j].0) == Some(s)
  {
    DeleteFirstMatch(e, s, i);
    LookupAfterRemoval(e, i, j, DeleteFirstWithValue(e, s));
  }

  /** With distinct keys, once entry `i` is removed its key is gone and a
      later entry `j` is still found. */
  lemma LookupAfterRemoval(e: seq<Entry>, i: nat, j: nat, r: seq<Entry>)
    requires DistinctKeys(e) && i < j < |e| && r == e[..i] + e[i + 1..]
    ensures Lookup(r, e[i].0) == None
    ensures Lookup(r, e[j].0) == Some(e[j].1)
  {
    RemovedKeyAbsent(e, i, r);
    assert r[j - 1] == e[j];
    LookupAt(r, j - 1);
    LookupAbsent(r, e[i].0);
  }

  /** With distinct keys, removing entry `i` leaves no entry with its key,
      and the remaining keys stay distinct. */
  lemma RemovedKeyAbsent(e: seq<Entry>, i: nat, r: seq<Entry>)
    requires DistinctKeys(e) && i < |e| && r == e[..i] + e[i + 1..]
    ensures DistinctKeys(r)
    ensures forall k :: 0 <= k < |r| ==> r[k].0 != e[i].0
  {
    forall k | 0 <= k < |r| ensures r[k].0 != e[i].0 {
      if k < i { assert r[k] == e[k]; } else { assert r[k] == e[k + 1]; }
    }
  }

  /** With distinct keys, lookup finds the entry at its index. */
  lemma {:induction false} LookupAt(e: seq<Entry>, k: nat)
    requires DistinctKeys(e) && k < |e|
    ensures Lookup(e, e[k].0) == Some(e[k].1)
  {
    if k > 0 {
      LookupAt(e[1..], k - 1);
    }
  }

  /** `get` returns the value of the first entry with the key, and undefined
      only when no entry has it. */
  lemma {:induction false} LookupFirst(e: seq<Entry>, u: UserId)
    ensures Lookup(e, u).Some? ==>
      exists i :: 0 <= i < |e| && e[i] == (u, Lookup(e, u).value) && forall j :: 0 <= j < i ==> e[j].0 != u
    ensures Lookup(e, u).None? ==> forall i :: 0 <= i < |e| ==> e[i].0 != u
  {
    if e != [] && e[0].0 != u {
      LookupFirst(e[1..], u);
      if Lookup(e, u).Some? {
        var i :| 0 <= i < |e[1..]| && e[1..][i] == (u, Lookup(e, u).value)
                 && forall j :: 0 <= j < i ==> e[1..][j].0 != u;
        assert e[i + 1] == (u, Lookup(e, u).value);
        assert forall j :: 0 <= j < i + 1 ==> e[j].0 != u by {
          forall j | 0 <= j < i + 1 ensures e[j].0 != u {
            if j > 0 { assert e[j] == e[1..][j - 1]; }
          }
        }
      } else {
        assert forall i :: 0 <= i < |e| ==> e[i].0 != u by {
          forall i | 0 <= i < |e| ensures e[i].0 != u {
            if i > 0 { assert e[i] == e[1..][i - 1]; }
          }
        }
      }
    }
  }

  /** Lookup of a key no entry holds. */
  lemma {:induction false} LookupAbsent(e: seq<Entry>, u: UserId)
    requires forall k :: 0 <= k < |e| ==> e[k].0 != u
    ensures Lookup(e, u) == None
  {
    if e != [] {
      LookupAbsent(e[1..], u);
    }
  }

  /** Disconnecting the same socket twice is the same as once when at most
      one entry maps to it. */
  lemma DisconnectTwiceWhenSingle(e: seq<Entry>, s: SocketId)
    requires forall i, j :: 0 <= i < j < |e| && e[i].1 == s ==> e[j].1 != s
    ensures DeleteFirstWithValue(DeleteFirstWithValue(e, s), s) == DeleteFirstWithValue(e, s)
  {
    if i :| 0 <= i < |e| && e[i].1 == s {
      var f := FirstIndex(e, s, i);
      DeleteFirstMatch(e, s, f);
      var r := e[..f] + e[f + 1..];
      forall k | 0 <= k < |r| ensures r[k].1 != s {
        if k < f { assert r[k] == e[k]; } else { assert r[k] == e[k + 1]; }
      }
      DeleteNoMatch(r, s);
    } else {
      DeleteNoMatch(e, s);
    }
  }

  /** The index of the first entry with value `s`. */
  function FirstIndex(e: seq<Entry>, s: SocketId, k: nat): (f: nat)
    requires k < |e| && e[k].1 == s
    ensures f <= k && e[f].1 == s && forall j :: 0 <= j < f ==> e[j].1 != s
  {
    FirstMatchExists(e, s, k);
    var f :| 0 <= f <= k && e[f].1 == s && forall j :: 0 <= j < f ==> e[j].1 != s;
    f
  }

  /** When one socket registered two users, a second disconnect of that
      socket removes another user: the handler is not idempotent. */
  lemma DisconnectTwiceWhenShared()
    ensures var e := [("u1", "A"), ("u2", "A")];
      DeleteFirstWithValue(DeleteFirstWithValue(e, "A"), "A") != DeleteFirstWithValue(e, "A")
  {
    var e: seq<Entry> := [("u1", "A"), ("u2", "A")];
    assert DeleteFirstWithValue(e, "A") == [("u2", "A")];
    assert DeleteFirstWithValue([("u2", "A")], "A") == [];
  }

  /** Connect-then-disconnect on a socket nobody else uses: the user is gone
      afterwards, and a user that was not online before leaves the registry
      exactly as it was. */
  lemma {:induction false} OnlineThenOffline(e: seq<Entry>, u: UserId, s: SocketId)
    requires DistinctKeys(e)
    requires forall k :: 0 <= k < |e| ==> e[k].1 != s
    ensures u !in Keys(DeleteFirstWithValue(MapSet(e, u, s), s))
    ensures u !in Keys(e) ==> DeleteFirstWithValue(MapSet(e, u, s), s) == e
  {
    if e == [] {
    } else if e[0].0 == u {
      assert MapSet(e, u, s) == [(u, s)] + e[1..];
      assert DeleteFirstWithValue(MapSet(e, u, s), s) == e[1..];
      assert u !in Keys(e[1..]) by {
        forall k | 0 <= k < |e[1..]| ensures Keys(e[1..])[k] != u { assert e[1..][k] == e[k + 1]; }
      }
    } else {
      assert forall k :: 0 <= k < |e[1..]| ==> e[1..][k] == e[k + 1];
      OnlineThenOffline(e[1..], u, s);
      assert Keys(DeleteFirstWithValue(MapSet(e, u, s), s))
          == [e[0].0] + Keys(DeleteFirstWithValue(MapSet(e[1..], u, s), s));
      if u !in Keys(e) {
        assert u !in Keys(e[1..]) by {
          forall k | 0 <= k < |e[1..]| ensures Keys(e[1..])[k] != u { assert Keys(e)[k + 1] == e[k + 1].0; }
        }
        assert e == [e[0]] + e[1..];
      }
    }
  }

  // ---------------------------------------------------------------------
  // The server object

  /** `res.socket.server` together with the module-level `onlineUsers`. */
  class SocketHost {
    /** `onlineUsers`: userId -> socket id, in insertion order. */
    var online: seq<Entry>
    /** `res.socket.server.io` is set. */
    var attached: bool
    /** Every `io.emit`, oldest first. */
    var emitted: seq<Emission>
    /** Socket.IO servers constructed so far. */
    var constructed: nat
    /** Responses ended by `ioHandler`. */
    var ended: nat

    ghost predicate Valid()
      reads this
    {
      DistinctKeys(online) && constructed == (if attached then 1 else 0)
    }

    /** The process starts with an empty registry and nothing attached. */
    constructor ()
      ensures Valid() && !attached
      ensures online == [] && emitted == [] && constructed == 0 && ended == 0
    {
      online, attached, emitted, constructed, ended := [], false, [], 0, 0;
    }

    /** `ioHandler`: construct and attach a server only when none is
        attached; always end the response. */
    method IoHandler() returns (constructedNow: bool)
      requires Valid()
      modifies this
      ensures Valid() && attached
      ensures constructedNow == !old(attached)
      ensures constructed == old(constructed) + (if constructedNow then 1 else 0)
      ensures ended == old(ended) + 1
      ensures online == old(online) && emitted == old(emitted)
    {
      constructedNow := !attached;
      if !attached {
        constructed := constructed + 1;
        attached := true;
      }
      ended := ended + 1;
    }

    /** `io.emit(event, payload)` on the attached server. */
    method Emit(event: string, payload: Payload)
      requires Valid() && attached
      modifies this
      ensures Valid() && attached
      ensures emitted == old(emitted) + [Emission(event, payload)]
      ensures online == old(online) && constructed == old(constructed) && ended == old(ended)
    {
      emitted := emitted + [Emission(event, payload)];
    }

    /** The `user-online` handler of a connection whose socket id is `socketId`. */
    method UserOnline(userId: UserId, socketId: SocketId)
      requires Valid() && attached
      modifies this
      ensures Valid() && attached
      ensures online == MapSet(old(online), userId, socketId)
      ensures Lookup(online, userId) == Some(socketId)
      ensures forall v :: v != userId ==> Lookup(online, v) == Lookup(old(online), v)
      ensures emitted == old(emitted) + [Emission(ONLINE_USERS, OnlineUsers(Keys(online)))]
      ensures constructed == old(constructed) && ended == old(ended)
    {
      SetKeepsKeysDistinct(online, userId, socketId);
      forall v ensures Lookup(MapSet(online, userId, socketId), v)
                    == if v == userId then Some(socketId) else Lookup(online, v) {
        SetLookup(online, userId, socketId, v);
      }
      online := MapSet(online, userId, socketId);
      Emit(ONLINE_USERS, OnlineUsers(Keys(online)));
    }

    /** The `disconnect` handler: the `for...of` loop with `break` deletes the
        first entry whose value is the socket id, then the keys are broadcast. */
    method Disconnect(socketId: SocketId)
      requires Valid() && attached
      modifies this
      ensures Valid() && attached
      ensures online == DeleteFirstWithValue(old(online), socketId)
      ensures emitted == old(emitted) + [Emission(ONLINE_USERS, OnlineUsers(Keys(online)))]
      ensures constructed == old(constructed) && ended == old(ended)
    {
      DeleteKeepsKeysDistinct(online, socketId);
      var i := 0;
      while i < |online|
        invariant 0 <= i <= |online| && online == old(online)
        invariant forall j :: 0 <= j < i ==> online[j].1 != socketId
      {
        if online[i].1 == socketId {
          DeleteFirstMatch(online, socketId, i);
          online := online[..i] + online[i + 1..];
          break;
        }
        i := i + 1;
      }
      if online == old(online) && i == |online| {
        DeleteNoMatch(online, socketId);
      }
      Emit(ONLINE_USERS, OnlineUsers(Keys(online)));
    }
  }
}
