/** The persistence layer of db.py: the `users`, `sessions` and `chats`
    collections of the ChatApplication database, held in memory by one
    object whose methods update them in place. */
module Store {

  datatype Option<T> = None | Some(value: T)

  /** A MongoDB ObjectId. Only its identity and freshness matter here. */
  type Id = nat

  /** The random salt bcrypt.gensalt() returns; it is an input of the model. */
  type Salt = nat

  /** A bcrypt digest: it carries its own salt, as bcrypt's output does. */
  datatype Digest = Digest(salt: Salt, image: seq<int>)

  /** Stand-in for bcrypt.hashpw: a collision-free function of the password
      and the salt. The stored credential is a Digest, never a string. */
  function Hash(password: string, salt: Salt): Digest
  {
    Digest(salt, seq(|password|, i requires 0 <= i < |password| => password[i] as int + salt))
  }

  /** bcrypt.checkpw: hash the candidate with the salt stored in the digest
      and compare. */
  predicate Verify(password: string, digest: Digest)
  {
    Hash(password, digest.salt) == digest
  }

  /** A digest made from a password verifies that password and no other. */
  lemma VerifyExactly(password: string, candidate: string, salt: Salt)
    ensures Verify(candidate, Hash(password, salt)) <==> candidate == password
  {
    if Verify(candidate, Hash(password, salt)) {
      var a, b := Hash(password, salt).image, Hash(candidate, salt).image;
      assert |candidate| == |b| == |a| == |password|;
      forall i | 0 <= i < |password|
        ensures candidate[i] == password[i]
      {
        assert a[i] == b[i];
      }
    }
  }

  /** One stored chat entry, the (role, text) pair app.py appends. The store
      does not restrict the role. */
  datatype Message = Message(role: string, text: string)

  /** A document of `users`: its _id and the hashed password. */
  datatype UserRecord = UserRecord(id: Id, digest: Digest)

  /** A document of `sessions`. */
  datatype SessionDoc = SessionDoc(id: Id, owner: Id, name: string)
  {
    /** The projection list_chat_sessions returns for one document. */
    function Info(): SessionInfo { SessionInfo(id, name) }
  }

  /** {"session_id": ..., "session_name": ...} */
  datatype SessionInfo = SessionInfo(id: Id, name: string)

  /** No two session documents share an _id. */
  ghost predicate DistinctIds(docs: seq<SessionDoc>)
  {
    forall i, j :: 0 <= i < j < |docs| ==> docs[i].id != docs[j].id
  }

  /** find({"user_id": owner}) projected to (id, name), in collection order. */
  function OwnedBy(docs: seq<SessionDoc>, owner: Id): (r: seq<SessionInfo>)
    ensures |r| <= |docs|
    ensures forall info :: info in r <==> exists d :: d in docs && d.owner == owner && info == d.Info()
  {
    if docs == [] then []
    else if docs[0].owner == owner then [docs[0].Info()] + OwnedBy(docs[1..], owner)
    else OwnedBy(docs[1..], owner)
  }

  /** Inserting a document at the end of the collection adds its projection
      at the end of its owner's listing and leaves every other listing alone. */
  lemma {:induction false} OwnedByAppend(docs: seq<SessionDoc>, d: SessionDoc, owner: Id)
    ensures OwnedBy(docs + [d], owner)
            == OwnedBy(docs, owner) + (if d.owner == owner then [d.Info()] else [])
  {
    if docs != [] {
      assert (docs + [d])[1..] == docs[1..] + [d];
      OwnedByAppend(docs[1..], d, owner);
    }
  }

  /** update_one({"_id": id}, {"$set": {"session_name": name}}): the first
      document with that _id gets the new name. */
  function Renamed(docs: seq<SessionDoc>, id: Id, name: string): (r: seq<SessionDoc>)
    ensures |r| == |docs|
  {
    if docs == [] then []
    else if docs[0].id == id then [docs[0].(name := name)] + docs[1..]
    else [docs[0]] + Renamed(docs[1..], id, name)
  }

  /** Renaming keeps every document in place and changes at most the name of
      the document with that _id. */
  lemma {:induction false} RenamedAt(docs: seq<SessionDoc>, id: Id, name: string, i: int)
    requires DistinctIds(docs) && 0 <= i < |docs|
    ensures Renamed(docs, id, name)[i] == if docs[i].id == id then docs[i].(name := name) else docs[i]
  {
    if docs[0].id != id && i > 0 {
      RenamedAt(docs[1..], id, name, i - 1);
    }
  }

  /** Renaming keeps the _id at every position, so the _ids stay distinct
      and within any set that held them. */
  lemma {:induction false} RenamedKeepsIds(docs: seq<SessionDoc>, id: Id, name: string, ids: set<Id>)
    requires DistinctIds(docs) && forall d :: d in docs ==> d.id in ids
    ensures DistinctIds(Renamed(docs, id, name))
    ensures forall d :: d in Renamed(docs, id, name) ==> d.id in ids
  {
    var r := Renamed(docs, id, name);
    forall i | 0 <= i < |docs|
      ensures r[i].id == docs[i].id
    {
      RenamedAt(docs, id, name, i);
    }
    forall i, j | 0 <= i < j < |r|
      ensures r[i].id != r[j].id
    {
      assert docs[i].id != docs[j].id;
    }
    forall d | d in r
      ensures d.id in ids
    {
      var k :| 0 <= k < |r| && r[k] == d;
      assert docs[k] in docs;
    }
  }

  /** Renaming an _id that is not in the collection changes nothing. */
  lemma {:induction false} RenamedMissing(docs: seq<SessionDoc>, id: Id, name: string)
    requires forall d :: d in docs ==> d.id != id
    ensures Renamed(docs, id, name) == docs
  {
    if docs != [] {
      assert docs == [docs[0]] + docs[1..];
      RenamedMissing(docs[1..], id, name);
    }
  }

  /** delete_one({"_id": id}): the first document with that _id goes, and
      only that one. */
  function Without(docs: seq<SessionDoc>, id: Id): (r: seq<SessionDoc>)
    ensures |r| == if exists d :: d in docs && d.id == id then |docs| - 1 else |docs|
  {
    if docs == [] then []
    else if docs[0].id == id then docs[1..]
    else [docs[0]] + Without(docs[1..], id)
  }

  /** Deleting keeps exactly the documents with another _id, and keeps the
      _ids distinct. */
  lemma {:induction false} WithoutMembers(docs: seq<SessionDoc>, id: Id)
    requires DistinctIds(docs)
    ensures DistinctIds(Without(docs, id))
    ensures forall d :: d in Without(docs, id) <==> d in docs && d.id != id
  {
    if docs != [] {
      assert DistinctIds(docs[1..]);
      if docs[0].id == id {
        forall d | d in docs[1..]
          ensures d.id != id
        {
          var k :| 0 <= k < |docs[1..]| && docs[1..][k] == d;
          assert docs[k + 1] == d;
        }
      } else {
        WithoutMembers(docs[1..], id);
        var r := Without(docs[1..], id);
        assert Without(docs, id) == [docs[0]] + r;
        forall i, j | 0 <= i < j < |[docs[0]] + r|
          ensures ([docs[0]] + r)[i].id != ([docs[0]] + r)[j].id
        {
          if i == 0 {
            var d := r[j - 1];
            assert d in docs[1..];
            var k :| 0 <= k < |docs[1..]| && docs[1..][k] == d;
            assert docs[k + 1] == d;
          }
        }
      }
    }
  }

  /** Deleting the document at position k, the only one with that _id,
      keeps the others in their order. */
  lemma {:induction false} WithoutAt(docs: seq<SessionDoc>, id: Id, k: int)
    requires DistinctIds(docs) && 0 <= k < |docs| && docs[k].id == id
    ensures Without(docs, id) == docs[..k] + docs[k + 1..]
  {
    if k > 0 {
      assert docs[0].id != id;
      WithoutAt(docs[1..], id, k - 1);
      assert docs[1..][..k - 1] + docs[1..][k..] == docs[1..k] + docs[k + 1..];
      assert docs[..k] == [docs[0]] + docs[1..k];
    }
  }

  /** Deleting an _id that is not in the collection changes nothing. */
  lemma {:induction false} WithoutMissing(docs: seq<SessionDoc>, id: Id)
    requires forall d :: d in docs ==> d.id != id
    ensures Without(docs, id) == docs
  {
    if docs != [] {
      assert docs == [docs[0]] + docs[1..];
      WithoutMissing(docs[1..], id);
    }
  }

  /** Every finite set of ids leaves some id unused. */
  lemma UnusedIdExists(used: set<Id>)
    ensures exists id: Id :: id !in used
  {
    var b := Bound(used);
    assert b !in used;
  }

  /** A strict upper bound of a finite set of ids. */
  ghost function Bound(used: set<Id>): (b: Id)
    ensures forall id :: id in used ==> id < b
    decreases used
  {
    if used == {} then 0
    else
      var x :| x in used;
      var rest := Bound(used - {x});
      assert forall id :: id in used ==> id == x || id in used - {x};
      if x < rest then rest else x + 1
  }

  /** The three collections. `issued` is every ObjectId generated so far,
      the state that keeps ObjectId generation fresh. */
  class ChatStore {
    var users: map<string, UserRecord>
    var sessions: seq<SessionDoc>
    var chats: map<Id, seq<Message>>
    var issued: set<Id>

    ghost predicate Valid()
      reads this
    {
      && (forall u :: u in users ==> users[u].id in issued)
      && (forall d :: d in sessions ==> d.id in issued)
      && (forall d :: d in sessions ==> d.id in chats)
      && DistinctIds(sessions)
    }

    /** An empty database. */
    constructor ()
      ensures Valid()
      ensures users == map[] && sessions == [] && chats == map[] && issued == {}
    {
      users, sessions, chats, issued := map[], [], map[], {};
    }

    /** The _id insert_one generates: never issued before and not the key of
        any stored transcript. */
    method NewObjectId() returns (id: Id)
      requires Valid()
      modifies this
      ensures Valid()
      ensures id !in old(issued) && id !in chats
      ensures issued == old(issued) + {id}
      ensures users == old(users) && sessions == old(sessions) && chats == old(chats)
    {
      UnusedIdExists(issued + chats.Keys);
      id :| id !in issued + chats.Keys;
      issued := issued + {id};
    }

    /** create_user: refuses a username already present; otherwise stores the
        username with a salted hash of the password under a fresh _id. */
    method CreateUser(username: string, password: string, salt: Salt) returns (created: bool)
      requires Valid()
      modifies this
      ensures Valid()
      ensures created <==> username !in old(users)
      ensures !created ==> unchanged(this)
      ensures created ==> && username in users
                          && users == old(users)[username := users[username]]
                          && users[username].digest == Hash(password, salt)
                          && users[username].id !in old(issued)
                          && issued == old(issued) + {users[username].id}
      ensures created ==> AuthenticateUser(username, password) == Some(users[username].id)
      ensures sessions == old(sessions) && chats == old(chats)
    {
      if username in users {
        return false;
      }
      var id := NewObjectId();
      users := users[username := UserRecord(id, Hash(password, salt))];
      VerifyExactly(password, password, salt);
      created := true;
    }

    /** authenticate_user: the user's _id when the username exists and the
        password verifies against its stored digest, None otherwise. */
    function AuthenticateUser(username: string, password: string): (r: Option<Id>)
      reads this
      ensures r.Some? <==> username in users && Verify(password, users[username].digest)
      ensures r.Some? ==> r.value == users[username].id
    {
      if username in users && Verify(password, users[username].digest) then
        Some(users[username].id)
      else
        None
    }

    /** create_chat_session: a session document under a fresh _id, appended
        to the collection, together with an empty transcript. */
    method CreateChatSession(owner: Id, name: string) returns (id: Id)
      requires Valid()
      modifies this
      ensures Valid()
      ensures id !in old(issued) && id !in old(chats)
      ensures forall d :: d in old(sessions) ==> d.id != id
      ensures sessions == old(sessions) + [SessionDoc(id, owner, name)]
      ensures chats == old(chats)[id := []]
      ensures users == old(users) && issued == old(issued) + {id}
      ensures ListChatSessions(owner) == old(ListChatSessions(owner)) + [SessionInfo(id, name)]
      ensures forall other :: other != owner ==> ListChatSessions(other) == old(ListChatSessions(other))
      ensures GetChatHistory(id) == []
    {
      id := NewObjectId();
      forall other
        ensures OwnedBy(sessions + [SessionDoc(id, owner, name)], other)
                == OwnedBy(sessions, other) + (if owner == other then [SessionInfo(id, name)] else [])
      {
        OwnedByAppend(sessions, SessionDoc(id, owner, name), other);
      }
      var doc := SessionDoc(id, owner, name);
      assert DistinctIds(sessions + [doc]) by {
        forall i, j | 0 <= i < j < |sessions + [doc]|
          ensures (sessions + [doc])[i].id != (sessions + [doc])[j].id
        {
          if j == |sessions| {
            assert sessions[i] in sessions;
          }
        }
      }
      sessions := sessions + [doc];
      chats := chats[id := []];
    }

    /** list_chat_sessions: (id, name) of exactly the sessions the user owns,
        in collection order. */
    function ListChatSessions(owner: Id): (r: seq<SessionInfo>)
      reads this
      ensures forall info :: info in r <==>
                exists d :: d in sessions && d.owner == owner && info == SessionInfo(d.id, d.name)
    {
      OwnedBy(sessions, owner)
    }

    /** rename_chat_session: sets the name of the session with that _id;
        owner, position, other sessions and transcripts stay as they were. */
    method RenameChatSession(id: Id, name: string)
      requires Valid()
      modifies this
      ensures Valid()
      ensures sessions == Renamed(old(sessions), id, name)
      ensures |sessions| == |old(sessions)|
      ensures forall i :: 0 <= i < |sessions| ==>
                sessions[i] == if old(sessions[i]).id == id then old(sessions[i]).(name := name) else old(sessions[i])
      ensures (forall d :: d in old(sessions) ==> d.id != id) ==> sessions == old(sessions)
      ensures users == old(users) && chats == old(chats) && issued == old(issued)
    {
      var before := sessions;
      sessions := Renamed(sessions, id, name);
      forall i | 0 <= i < |before|
        ensures |sessions| == |before|
        ensures sessions[i] == if before[i].id == id then before[i].(name := name) else before[i]
      {
        RenamedAt(before, id, name, i);
      }
      if forall d :: d in before ==> d.id != id {
        RenamedMissing(before, id, name);
      }
      RenamedKeepsIds(before, id, name, issued);
      RenamedKeepsIds(before, id, name, chats.Keys);
    }

    /** delete_chat_session: removes the session document and its transcript;
        with an unknown _id it changes nothing. */
    method DeleteChatSession(id: Id)
      requires Valid()
      modifies this
      ensures Valid()
      ensures sessions == Without(old(sessions), id)
      ensures chats == old(chats) - {id}
      ensures users == old(users) && issued == old(issued)
      ensures forall d :: d in sessions <==> d in old(sessions) && d.id != id
      ensures forall owner, info :: info in ListChatSessions(owner) ==> info.id != id
      ensures GetChatHistory(id) == []
      ensures (forall d :: d in old(sessions) ==> d.id != id) && id !in old(chats) ==> unchanged(this)
    {
      WithoutMembers(sessions, id);
      if forall d :: d in sessions ==> d.id != id {
        WithoutMissing(sessions, id);
      }
      if id !in chats {
        assert chats - {id} == chats;
      }
      sessions := Without(sessions, id);
      chats := chats - {id};
    }

    /** save_chat_history: overwrites (or inserts) the whole transcript of
        the session; nothing is merged with what was there. */
    method SaveChatHistory(id: Id, history: seq<Message>)
      requires Valid()
      modifies this
      ensures Valid()
      ensures chats == old(chats)[id := history]
      ensures GetChatHistory(id) == history
      ensures users == old(users) && sessions == old(sessions) && issued == old(issued)
    {
      chats := chats[id := history];
    }

    /** get_chat_history: the stored transcript, or [] when none is stored. */
    function GetChatHistory(id: Id): (h: seq<Message>)
      reads this
      ensures id in chats ==> h == chats[id]
      ensures id !in chats ==> h == []
    {
      if id in chats then chats[id] else []
    }
  }

  /** The password a user registered with authenticates that user, and no
      other password does. */
  lemma AuthenticateOnlyRegistered(store: ChatStore, username: string, password: string,
                                   salt: Salt, candidate: string)
    requires username in store.users && store.users[username].digest == Hash(password, salt)
    ensures store.AuthenticateUser(username, candidate).Some? <==> candidate == password
  {
    VerifyExactly(password, candidate, salt);
  }

  /** Every listed session has a stored transcript, so reading it never
      falls back to the empty default. */
  lemma ListedHasTranscript(store: ChatStore, owner: Id, info: SessionInfo)
    requires store.Valid() && info in store.ListChatSessions(owner)
    ensures info.id in store.chats && store.GetChatHistory(info.id) == store.chats[info.id]
  {
    var d :| d in store.sessions && d.owner == owner && info == SessionInfo(d.id, d.name);
  }

  /** An unknown username never authenticates. */
  lemma AuthenticateUnknown(store: ChatStore, username: string, password: string)
    requires username !in store.users
    ensures store.AuthenticateUser(username, password) == None
  {
  }
}
