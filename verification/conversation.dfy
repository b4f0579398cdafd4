/** The script of app.py after its helper functions: signing in, choosing
    the active chat session, creating, renaming and deleting sessions, and
    running one chat turn. The fields of ChatApp are the keys the script
    keeps in st.session_state; the Streamlit widgets become the arguments of
    the methods, and the Gemini reply becomes a Stream argument. */
module Conversation {
  import opened Store
  import opened Formatter

  /** The chunks of one streamed Gemini reply, in arrival order, and whether
      the call or the iteration over the stream raised before it ended. */
  datatype Stream = Stream(chunks: seq<string>, failed: bool)

  /** The reply assembled from its chunks. */
  function Concat(chunks: seq<string>): string
  {
    if chunks == [] then "" else Concat(chunks[..|chunks| - 1]) + chunks[|chunks| - 1]
  }

  /** Concatenating the chunks of two consecutive pieces of a stream gives
      the concatenation of the two replies, in order. */
  lemma {:induction false} ConcatAppend(front: seq<string>, back: seq<string>)
    ensures Concat(front + back) == Concat(front) + Concat(back)
  {
    if back == [] {
      assert front + back == front;
    } else {
      var n := |back| - 1;
      var whole := front + back;
      assert whole[..|whole| - 1] == front + back[..n];
      assert whole[|whole| - 1] == back[n];
      ConcatAppend(front, back[..n]);
      calc {
        Concat(whole);
        Concat(front + back[..n]) + back[n];
        (Concat(front) + Concat(back[..n])) + back[n];
        Concat(front) + (Concat(back[..n]) + back[n]);
        Concat(front) + Concat(back);
      }
    }
  }

  /** The reply's length is the total length of its chunks, and a one-chunk
      stream yields that chunk. */
  lemma {:induction false} ConcatLength(chunks: seq<string>)
    ensures |Concat(chunks)| == TotalLength(chunks)
    ensures |chunks| == 1 ==> Concat(chunks) == chunks[0]
  {
    if chunks != [] {
      ConcatLength(chunks[..|chunks| - 1]);
    }
  }

  function TotalLength(chunks: seq<string>): nat
  {
    if chunks == [] then 0 else TotalLength(chunks[..|chunks| - 1]) + |chunks[|chunks| - 1]|
  }

  /** ai_response = "" followed by ai_response += chunk.text for every chunk. */
  method AssembleReply(chunks: seq<string>) returns (reply: string)
    ensures reply == Concat(chunks)
    ensures |reply| == TotalLength(chunks)
    ensures chunks == [] ==> reply == ""
  {
    reply := "";
    for k := 0 to |chunks|
      invariant reply == Concat(chunks[..k])
    {
      assert chunks[..k + 1][..k] == chunks[..k];
      reply := reply + chunks[k];
    }
    assert chunks[..|chunks|] == chunks;
    ConcatLength(chunks);
  }

  function Digit(d: nat): char
    requires d < 10
  {
    ('0' as int + d) as char
  }

  predicate IsDigits(s: string)
  {
    forall i :: 0 <= i < |s| ==> '0' <= s[i] <= '9'
  }

  /** str(n) for a natural number: decimal digits without a leading zero. */
  function NatToString(n: nat): (s: string)
    ensures |s| > 0 && IsDigits(s)
    ensures s[0] == '0' <==> n == 0
  {
    if n < 10 then [Digit(n)] else NatToString(n / 10) + [Digit(n % 10)]
  }

  /** int(s) for a string of decimal digits. */
  function DecimalValue(s: string): nat
    requires IsDigits(s)
  {
    if s == [] then 0 else DecimalValue(s[..|s| - 1]) * 10 + (s[|s| - 1] as int - '0' as int)
  }

  /** The digits str(n) produces read back as n: the number in a chat name
      is the count it was made from. */
  lemma {:induction false} NatToStringRoundTrip(n: nat)
    ensures DecimalValue(NatToString(n)) == n
  {
    if n >= 10 {
      var s := NatToString(n);
      assert s[..|s| - 1] == NatToString(n / 10);
      NatToStringRoundTrip(n / 10);
    }
  }

  /** The name the "New Chat" button gives: f"Chat {count + 1}". */
  function NewChatName(count: nat): (name: string)
    ensures |name| > 5 && name[..5] == "Chat " && IsDigits(name[5..]) && DecimalValue(name[5..]) == count + 1
    ensures name[5] != '0'
  {
    NatToStringRoundTrip(count + 1);
    assert ("Chat " + NatToString(count + 1))[5..] == NatToString(count + 1);
    "Chat " + NatToString(count + 1)
  }

  const FIRST_CHAT: string := "First Chat"

  /** list(session_options.keys()) for session_options = {name: id}: each
      name once, where it first occurs. */
  function OptionNames(infos: seq<SessionInfo>): (names: seq<string>)
    ensures forall name :: name in names <==> exists info :: info in infos && info.name == name
    ensures forall i, j :: 0 <= i < j < |names| ==> names[i] != names[j]
  {
    if infos == [] then []
    else
      var names := OptionNames(infos[..|infos| - 1]);
      var last := infos[|infos| - 1];
      assert infos == infos[..|infos| - 1] + [last];
      if last.name in names then names else names + [last.name]
  }

  /** Python dicts keep keys in first-insertion order, so the first option
      is the name of the first listed session. */
  lemma {:induction false} OptionNamesFirst(infos: seq<SessionInfo>)
    requires infos != []
    ensures OptionNames(infos)[0] == infos[0].name
  {
    var front := infos[..|infos| - 1];
    if front != [] {
      OptionNamesFirst(front);
      assert front[0] == infos[0];
    }
  }

  /** session_options[name]: a later session with the same name overwrites
      an earlier one, so the id is that of the last session with the name. */
  function OptionId(infos: seq<SessionInfo>, name: string): (r: Option<Id>)
    ensures r.Some? <==> name in OptionNames(infos)
    ensures r.Some? ==> exists k :: 0 <= k < |infos| && infos[k] == SessionInfo(r.value, name)
                                    && forall j :: k < j < |infos| ==> infos[j].name != name
  {
    if infos == [] then None
    else
      var last := infos[|infos| - 1];
      assert infos == infos[..|infos| - 1] + [last];
      if last.name == name then Some(last.id) else OptionId(infos[..|infos| - 1], name)
  }

  /** session_names.index(name), or 0 when the name is not an option: the
      entry the selectbox shows first. */
  function CurrentIndex(names: seq<string>, name: string): (k: nat)
    ensures name in names ==> k < |names| && names[k] == name
                              && forall j :: 0 <= j < k ==> names[j] != name
    ensures name !in names ==> k == 0
  {
    if names == [] || names[0] == name then 0
    else if name in names[1..] then 1 + CurrentIndex(names[1..], name)
    else 0
  }

  /** The session the script works on: selected_session_id and
      selected_session_name. */
  datatype Selection = Selection(id: Id, name: string)

  /** user_id and username, set on login. */
  datatype Account = Account(id: Id, username: string)

  /** The radio button of the login page. */
  datatype AuthAction = Login | Register

  /** The messages the login page shows. */
  datatype AuthOutcome = MissingCredentials | Registered | UsernameTaken | LoggedIn | InvalidCredentials

  /** st.session_state of one browser session, over the shared store. */
  class ChatApp {
    const store: ChatStore
    var account: Option<Account>
    var selection: Option<Selection>
    var chatHistory: Option<seq<Message>>

    ghost predicate Valid()
      reads this, store
    {
      && store.Valid()
      && (selection.Some? ==> selection.value.id in store.issued)
    }

    /** A new browser session: st.session_state is empty. */
    constructor (store: ChatStore)
      requires store.Valid()
      ensures Valid() && this.store == store
      ensures account.None? && selection.None? && chatHistory.None?
    {
      this.store := store;
      account, selection, chatHistory := None, None, None;
    }

    /** The login page's button: both fields are required; Register calls
        create_user, Login calls authenticate_user and keeps the id. */
    method SubmitCredentials(action: AuthAction, username: string, password: string, salt: Salt)
      returns (outcome: AuthOutcome)
      requires Valid() && account.None?
      modifies this, store
      ensures Valid()
      ensures outcome == MissingCredentials <==> username == "" || password == ""
      ensures outcome == MissingCredentials ==> unchanged(this) && unchanged(store)
      ensures action == Register ==> outcome in {MissingCredentials, Registered, UsernameTaken} && account == old(account)
      ensures action == Login ==> outcome in {MissingCredentials, LoggedIn, InvalidCredentials} && unchanged(store)
      ensures store.sessions == old(store.sessions) && store.chats == old(store.chats)
      ensures outcome in {MissingCredentials, Registered, UsernameTaken} ==> account.None?
      ensures action == Register && outcome != MissingCredentials ==>
                && (outcome == Registered <==> username !in old(store.users))
                && (outcome == Registered ==>
                      && username in store.users
                      && store.users == old(store.users)[username := store.users[username]]
                      && store.users[username].digest == Hash(password, salt)
                      && store.users[username].id !in old(store.issued)
                      && store.issued == old(store.issued) + {store.users[username].id}
                      && store.AuthenticateUser(username, password).Some?)
                && (outcome == UsernameTaken ==> unchanged(store))
                && store.users.Keys == old(store.users.Keys) + {username}
      ensures action == Login && outcome != MissingCredentials ==>
                && (outcome == LoggedIn <==> store.AuthenticateUser(username, password).Some?)
                && (outcome == LoggedIn ==>
                      account == Some(Account(store.AuthenticateUser(username, password).value, username)))
                && (outcome == InvalidCredentials ==> account.None?)
      ensures selection == old(selection) && chatHistory == old(chatHistory)
    {
      if username == "" || password == "" {
        return MissingCredentials;
      }
      if action == Register {
        var created := store.CreateUser(username, password, salt);
        outcome := if created then Registered else UsernameTaken;
      } else {
        var id := store.AuthenticateUser(username, password);
        if id.Some? {
          account := Some(Account(id.value, username));
          outcome := LoggedIn;
        } else {
          outcome := InvalidCredentials;
        }
      }
    }

    /** The first listed session of the user, or a new "First Chat" when
        the user has none; used when no session is selected yet and after a
        delete. */
    method SelectFirstOrCreate()
      requires Valid() && account.Some?
      modifies this, store
      ensures Valid()
      ensures account == old(account) && chatHistory == old(chatHistory)
      ensures var uid := account.value.id;
              var before := old(store.ListChatSessions(uid));
              && selection.Some?
              && (before != [] ==> selection == Some(Selection(before[0].id, before[0].name)) && unchanged(store))
              && (before == [] ==>
                    && selection.value.name == FIRST_CHAT
                    && selection.value.id !in old(store.issued)
                    && store.sessions == old(store.sessions) + [SessionDoc(selection.value.id, uid, FIRST_CHAT)]
                    && store.chats == old(store.chats)[selection.value.id := []]
                    && store.users == old(store.users)
                    && store.issued == old(store.issued) + {selection.value.id}
                    && store.ListChatSessions(uid) == [SessionInfo(selection.value.id, FIRST_CHAT)])
      ensures SessionInfo(selection.value.id, selection.value.name) in store.ListChatSessions(account.value.id)
    {
      var sessions := store.ListChatSessions(account.value.id);
      if sessions != [] {
        assert sessions[0] in sessions;
        selection := Some(Selection(sessions[0].id, sessions[0].name));
      } else {
        var id := store.CreateChatSession(account.value.id, FIRST_CHAT);
        selection := Some(Selection(id, FIRST_CHAT));
      }
    }

    /** The start of every run after login: keep the selected session, or
        select one when there is none. */
    method InitSelection()
      requires Valid() && account.Some?
      modifies this, store
      ensures Valid()
      ensures selection.Some?
      ensures account == old(account) && chatHistory == old(chatHistory)
      ensures old(selection).Some? ==> unchanged(this) && unchanged(store)
      ensures old(selection).None? ==>
                SessionInfo(selection.value.id, selection.value.name) in store.ListChatSessions(account.value.id)
      ensures old(selection).None? && old(store.ListChatSessions(account.value.id)) != [] ==>
                var first := old(store.ListChatSessions(account.value.id))[0];
                selection == Some(Selection(first.id, first.name)) && unchanged(store)
      ensures old(selection).None? && old(store.ListChatSessions(account.value.id)) == [] ==>
                var uid := account.value.id;
                && selection.value.name == FIRST_CHAT
                && selection.value.id !in old(store.issued)
                && store.sessions == old(store.sessions) + [SessionDoc(selection.value.id, uid, FIRST_CHAT)]
                && store.chats == old(store.chats)[selection.value.id := []]
                && store.users == old(store.users)
                && store.issued == old(store.issued) + {selection.value.id}
                && store.ListChatSessions(uid) == [SessionInfo(selection.value.id, FIRST_CHAT)]
                && store.GetChatHistory(selection.value.id) == []
    {
      if selection.None? {
        SelectFirstOrCreate();
      }
    }

    /** The selectbox: picking another name selects the id the options map
        gives that name and drops the cached history. */
    method ChooseSession(picked: string)
      requires Valid() && account.Some? && selection.Some?
      requires picked in OptionNames(store.ListChatSessions(account.value.id))
      modifies this
      ensures Valid()
      ensures account == old(account)
      ensures picked == old(selection.value.name) ==> unchanged(this)
      ensures picked != old(selection.value.name) ==>
                && selection == Some(Selection(OptionId(store.ListChatSessions(account.value.id), picked).value, picked))
                && chatHistory.None?
    {
      if picked != selection.value.name {
        var infos := store.ListChatSessions(account.value.id);
        var id := OptionId(infos, picked);
        var k :| 0 <= k < |infos| && infos[k] == SessionInfo(id.value, picked);
        assert infos[k] in infos;
        selection := Some(Selection(id.value, picked));
        chatHistory := None;
      }
    }

    /** The selectbox as a whole: it opens on the selected name, or on the
        first option when that name is no longer listed, and its value is
        that entry unless the user picks another one. */
    method Selectbox(touched: Option<string>)
      requires Valid() && account.Some? && selection.Some?
      requires OptionNames(store.ListChatSessions(account.value.id)) != []
      requires touched.Some? ==> touched.value in OptionNames(store.ListChatSessions(account.value.id))
      modifies this
      ensures Valid()
      ensures account == old(account)
      ensures var infos := store.ListChatSessions(account.value.id);
              var names := OptionNames(infos);
              && selection.Some? && selection.value.name in names
              && (touched.None? && old(selection.value.name) in names ==> unchanged(this))
              && (touched.Some? && touched.value == old(selection.value.name) ==> unchanged(this))
              && (touched.None? && old(selection.value.name) !in names ==>
                    selection == Some(Selection(OptionId(infos, names[0]).value, names[0])) && chatHistory.None?)
              && (touched.Some? && touched.value != old(selection.value.name) ==>
                    selection == Some(Selection(OptionId(infos, touched.value).value, touched.value)) && chatHistory.None?)
    {
      var names := OptionNames(store.ListChatSessions(account.value.id));
      var index := CurrentIndex(names, selection.value.name);
      var picked := if touched.Some? then touched.value else names[index];
      ChooseSession(picked);
    }

    /** The "New Chat" button: a session named after the number of the
        user's sessions, selected, with the cached history dropped. */
    method NewChat()
      requires Valid() && account.Some?
      modifies this, store
      ensures Valid()
      ensures account == old(account) && chatHistory.None?
      ensures var uid := account.value.id;
              var before := old(store.ListChatSessions(uid));
              && selection.Some?
              && selection.value.name == NewChatName(|before|)
              && selection.value.id !in old(store.issued)
              && store.sessions == old(store.sessions) + [SessionDoc(selection.value.id, uid, selection.value.name)]
              && store.chats == old(store.chats)[selection.value.id := []]
              && store.users == old(store.users)
              && store.issued == old(store.issued) + {selection.value.id}
              && store.ListChatSessions(uid) == before + [SessionInfo(selection.value.id, selection.value.name)]
    {
      var sessions := store.ListChatSessions(account.value.id);
      var name := NewChatName(|sessions|);
      var id := store.CreateChatSession(account.value.id, name);
      selection := Some(Selection(id, name));
      chatHistory := None;
    }

    /** The "Rename" button: only a name different from the current one
        reaches rename_chat_session; the cached history stays. */
    method RenameCurrent(newName: string)
      requires Valid() && selection.Some?
      modifies this, store
      ensures Valid()
      ensures account == old(account) && chatHistory == old(chatHistory)
      ensures newName == old(selection.value.name) ==> unchanged(this) && unchanged(store)
      ensures newName != old(selection.value.name) ==>
                && selection == Some(Selection(old(selection.value.id), newName))
                && store.sessions == Renamed(old(store.sessions), old(selection.value.id), newName)
                && store.users == old(store.users) && store.chats == old(store.chats)
                && store.issued == old(store.issued)
    {
      if newName != selection.value.name {
        store.RenameChatSession(selection.value.id, newName);
        selection := Some(Selection(selection.value.id, newName));
      }
    }

    /** The delete button: the selected session and its transcript go, and
        the first remaining session, or a new "First Chat", is selected. */
    method DeleteCurrent()
      requires Valid() && account.Some? && selection.Some?
      modifies this, store
      ensures Valid()
      ensures account == old(account) && chatHistory.None?
      ensures var gone := old(selection.value.id);
              var uid := account.value.id;
              var rest := Without(old(store.sessions), gone);
              var listed := OwnedBy(rest, uid);
              && selection.Some? && selection.value.id != gone
              && store.GetChatHistory(gone) == []
              && store.users == old(store.users)
              && (forall owner, info :: info in store.ListChatSessions(owner) ==> info.id != gone)
              && (listed != [] ==>
                    && selection == Some(Selection(listed[0].id, listed[0].name))
                    && store.sessions == rest
                    && store.chats == old(store.chats) - {gone}
                    && store.issued == old(store.issued))
              && (listed == [] ==>
                    && selection.value.name == FIRST_CHAT
                    && store.sessions == rest + [SessionDoc(selection.value.id, uid, FIRST_CHAT)]
                    && selection.value.id !in old(store.issued)
                    && store.chats == (old(store.chats) - {gone})[selection.value.id := []]
                    && store.issued == old(store.issued) + {selection.value.id})
      ensures SessionInfo(selection.value.id, selection.value.name) in store.ListChatSessions(account.value.id)
    {
      var gone := selection.value.id;
      store.DeleteChatSession(gone);
      SelectFirstOrCreate();
      chatHistory := None;
      forall owner, info | info in store.ListChatSessions(owner)
        ensures info.id != gone
      {
        var d :| d in store.sessions && d.owner == owner && info == SessionInfo(d.id, d.name);
      }
    }

    /** The "Logout" button: st.session_state.clear(). */
    method Logout()
      requires Valid()
      modifies this
      ensures Valid()
      ensures account.None? && selection.None? && chatHistory.None?
    {
      account, selection, chatHistory := None, None, None;
    }

    /** Loads the transcript of the selected session unless one is cached. */
    method LoadHistory()
      requires Valid() && selection.Some?
      modifies this
      ensures Valid()
      ensures account == old(account) && selection == old(selection)
      ensures old(chatHistory).Some? ==> chatHistory == old(chatHistory)
      ensures old(chatHistory).None? ==> chatHistory == Some(store.GetChatHistory(selection.value.id))
    {
      if chatHistory.None? {
        chatHistory := Some(store.GetChatHistory(selection.value.id));
      }
    }

    /** One chat turn. An empty prompt does nothing. Otherwise the prompt is
        appended to the cached history, the last WINDOW_SIZE entries (the
        prompt among them) are formatted and sent with it, the streamed
        chunks are concatenated, and only when the stream ended without
        raising is the reply appended and the whole history saved. */
    method SubmitPrompt(prompt: string, stream: Stream) returns (sent: seq<Turn>, reply: Option<string>)
      requires Valid() && selection.Some? && chatHistory.Some?
      modifies this, store
      ensures Valid()
      ensures account == old(account) && selection == old(selection)
      ensures store.users == old(store.users) && store.sessions == old(store.sessions)
      ensures store.issued == old(store.issued)
      ensures prompt == "" ==> unchanged(this) && unchanged(store) && sent == [] && reply.None?
      ensures prompt != "" ==>
                var asked := old(chatHistory.value) + [Message("user", prompt)];
                && sent == Formatted(Recent(asked))
                && (stream.failed ==> reply.None? && chatHistory == Some(asked) && unchanged(store))
                && (!stream.failed ==>
                      && reply == Some(Concat(stream.chunks))
                      && chatHistory == Some(asked + [Message("assistant", reply.value)])
                      && store.chats == old(store.chats)[selection.value.id := chatHistory.value]
                      && store.GetChatHistory(selection.value.id) == chatHistory.value)
    {
      if prompt == "" {
        return [], None;
      }
      var history := chatHistory.value + [Message("user", prompt)];
      chatHistory := Some(history);
      sent := FormatHistoryForGemini(Recent(history));
      var text := AssembleReply(stream.chunks);
      if stream.failed {
        return sent, None;
      }
      history := history + [Message("assistant", text)];
      chatHistory := Some(history);
      store.SaveChatHistory(selection.value.id, history);
      reply := Some(text);
    }
  }

  /** A user registers "alice" with "pw1", logs in, gets a "First Chat"
      with an empty transcript, and sends "Hello" (ScenarioTurn). */
  method Scenario()
  {
    var store := new ChatStore();
    var app := new ChatApp(store);
    var outcome := app.SubmitCredentials(Register, "alice", "pw1", 7);
    assert outcome == Registered;
    outcome := app.SubmitCredentials(Login, "alice", "pw1", 0);
    assert outcome == LoggedIn;
    app.InitSelection();
    assert app.selection.value.name == FIRST_CHAT;
    app.LoadHistory();
    assert app.chatHistory == Some([]);
    ScenarioTurn(app);
  }

  /** "Hello" sent on a selected session with an empty transcript, the
      reply streaming as "Hi" and " there": both entries are stored. */
  method ScenarioTurn(app: ChatApp)
    requires app.Valid() && app.selection.Some? && app.chatHistory == Some([])
    modifies app, app.store
  {
    var hello, hi, there := "Hello", "Hi", " there";
    var chunks := [hi, there];
    assert Concat(chunks) == hi + there by {
      assert chunks[..1] == [hi];
      ConcatLength([hi]);
    }
    var sent, reply := app.SubmitPrompt(hello, Stream(chunks, false));
    assert reply == Some(hi + there);
    var asked, answered := Message("user", hello), Message("assistant", hi + there);
    assert [] + [asked] + [answered] == [asked, answered];
    assert app.store.GetChatHistory(app.selection.value.id) == [asked, answered];
  }

  /** A turn whose stream fails keeps its prompt in the cached history but
      stores nothing; the next successful turn then stores that prompt too,
      with no reply after it. */
  method FailedTurnThenTurn(app: ChatApp, first: string, second: string, chunks: seq<string>)
    requires app.Valid() && app.selection.Some? && app.chatHistory.Some?
    requires first != "" && second != ""
    modifies app, app.store
    ensures app.selection == old(app.selection)
    ensures var id := app.selection.value.id;
            app.store.GetChatHistory(id)
            == old(app.chatHistory.value)
               + [Message("user", first), Message("user", second), Message("assistant", Concat(chunks))]
  {
    ghost var before := app.chatHistory.value;
    var sent, reply := app.SubmitPrompt(first, Stream([], true));
    assert app.chatHistory == Some(before + [Message("user", first)]);
    sent, reply := app.SubmitPrompt(second, Stream(chunks, false));
    assert app.chatHistory.value
           == before + [Message("user", first)] + [Message("user", second)] + [Message("assistant", Concat(chunks))];
  }
}
