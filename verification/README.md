# GemSpark chat core in Dafny

GemSpark is a Streamlit chat application backed by MongoDB and Google's
Gemini model. Users register and log in, keep several named chat sessions
each, and talk to Gemini; every session's transcript is stored and sent back,
in part, as context for the next turn. This project models the layer under the
user interface and proves properties of it:

- `store.dfy`, module `Store` (db.py): the `users`, `sessions` and `chats`
  collections as the fields of one `ChatStore` object. `users` maps a username
  to its `_id` and password digest. `sessions` is the list of session documents
  in insertion order. `chats` maps a session id to its transcript. `issued`
  holds every ObjectId generated so far. The invariant `Valid` says that stored
  ids were issued, that session ids are distinct and that every session has a
  stored transcript. Each db.py function is a method that updates these fields
  in place, or a function that reads them.
- `formatter.dfy`, module `Formatter` (app.py, `format_history_for_gemini` and
  the `[-10:]` window): the specification function `Formatted` (one turn per
  entry), the loop `FormatHistoryForGemini` proved equal to it, and lemmas on
  roles, concatenation and windowing.
- `conversation.dfy`, module `Conversation` (the app.py script): `ChatApp`
  holds the `st.session_state` keys (`user_id`/`username` as `account`,
  `selected_session_id`/`selected_session_name` as `selection`, and
  `chat_history`). Each sidebar button, the login form and the chat input
  are methods on it. The streamed Gemini reply is a `Stream` argument: the
  chunk texts in arrival order and whether the call raised.

What the proofs establish:

- Usernames are unique when registrations happen one after another, and only the registered password authenticates. Real
  bcrypt reads only the first 72 bytes of a password, so this holds for
  passwords of at most 72 bytes (see "Left out").
- A new session always comes with an empty transcript, under an id never used
  before.
- A listing shows exactly the owner's sessions, in insertion order, and every
  listed session has a stored transcript.
- The last two facts rely on every MongoDB call succeeding: the model does not
  represent a call that raises halfway through create or delete (see "Left
  out").
- Rename changes only the name. Delete removes the session and its transcript,
  and a second delete does nothing.
- Saving overwrites the whole transcript, and reading returns `[]` when nothing
  is stored.
- The formatter keeps length and order, maps `assistant` to `model` and every
  other role to `user`, and commutes with the 10-entry window.
- A turn sends the formatted window, which ends with the prompt. The reply is
  the in-order concatenation of the chunks. The transcript is saved only when
  the stream ends without raising.
- Selection picks the first listed session, or creates "First Chat" when the
  user has none. This also happens after a delete. The selectbox falls back to
  the first option when the selected name is no longer listed. A new chat is
  named `Chat n+1`, and the digits read back as n+1 with no leading zero.

The model follows the code also where its behaviour may be unexpected:

- Rename and delete of a missing id do nothing; they report no error.
- The store accepts any role string.
- The window size is the constant 10, not a parameter.
- The prompt reaches Gemini twice. The formatted window already ends with the
  prompt as a `user` turn (`Formatter.SentWindow`), and `send_message` sends
  it again.
- A failed turn stores nothing, but its prompt stays in the cached history.
  The next successful turn therefore saves that prompt with no reply after it
  (`Conversation.FailedTurnThenTurn`). So "a failed turn leaves no partial
  turn in the store" holds for the failed call only, not for the transcript
  saved after it.
- A new chat's name need not be new. `Chat n+1` counts the user's current
  sessions, so after a delete it can repeat an existing name (First Chat,
  Chat 2, Chat 3; delete First Chat; New Chat makes a second "Chat 3"). The
  options then map that name to the later session (`Conversation.OptionId`),
  and the earlier one can no longer be picked by name.

## Model

| member | source | states |
|---|---|---|
| `Store.VerifyExactly` | db.py:34 | a digest made from a password verifies that password and no other (checkpw re-hashes with the stored salt) |
| `Store.OwnedBy` | db.py:57-58 | the projected listing holds exactly the (id, name) of the documents owned by the user, and no more entries than documents |
| `Store.OwnedByAppend` | db.py:41-58 | inserting a session document puts its (id, name) at the end of its owner's listing and leaves every other user's listing unchanged |
| `Store.Renamed` | db.py:63 | renaming keeps the number of session documents |
| `Store.RenamedKeepsIds` | db.py:63 | renaming keeps every _id at its position, so the _ids stay distinct and inside any set that held them |
| `Store.RenamedAt` | db.py:63 | with distinct ids, renaming keeps every document at its position and changes only the name of the document with that id |
| `Store.RenamedMissing` | db.py:63 | renaming an id with no document changes nothing |
| `Store.Without` | db.py:68 | delete_one removes exactly one document when some document has the id, and none otherwise |
| `Store.WithoutAt` | db.py:68 | with distinct ids, deleting the document at position k leaves the others in their order: `docs[..k] + docs[k+1..]` |
| `Store.WithoutMembers` | db.py:68 | deleting keeps exactly the documents with another id, and the ids stay distinct |
| `Store.WithoutMissing` | db.py:66-69 | deleting an id with no document changes nothing, so a repeated delete is a no-op |
| `Store.ChatStore.constructor` | db.py:12-17 | a new database has empty collections and no issued ids |
| `Store.ChatStore.NewObjectId` | db.py:27-46 | the `_id` that `insert_one` generates for a user (line 27) or a session (line 43): the generated id was never issued before and keys no stored transcript; nothing else changes |
| `Store.ChatStore.CreateUser` | db.py:22-28 | returns false and changes nothing when the username exists; otherwise adds exactly that user under a fresh id with the salted hash of the password, which then authenticates |
| `Store.ChatStore.AuthenticateUser` | db.py:31-36 | returns the user's id if and only if the username exists and the password verifies against the stored digest, and None otherwise |
| `Store.ChatStore.CreateChatSession` | db.py:41-52 | the returned id is fresh; the session is appended and its transcript is empty; the owner's listing gains (id, name) at the end; other listings and users are unchanged |
| `Store.ChatStore.ListChatSessions` | db.py:55-58 | an entry is listed if and only if some session document with that owner has that id and name |
| `Store.ChatStore.RenameChatSession` | db.py:61-63 | only the name of the matching session changes; positions, owners, other sessions, transcripts and users stay; a missing id changes nothing |
| `Store.ChatStore.DeleteChatSession` | db.py:66-69 | the session leaves every listing and its transcript reads as `[]`; all other documents stay; with a missing id and no transcript nothing changes |
| `Store.ChatStore.SaveChatHistory` | db.py:74-84 | the session's stored transcript becomes exactly the given list, whatever was there before; the other collections are unchanged |
| `Store.ChatStore.GetChatHistory` | db.py:87-92 | the stored transcript when one exists, and `[]` otherwise |
| `Store.AuthenticateOnlyRegistered` | db.py:22-36 | for a user created with a password, authentication succeeds for a candidate if and only if the candidate is that password |
| `Store.ListedHasTranscript` | db.py:41-92 | in a valid store, every listed session has a stored transcript, and reading it returns that transcript |
| `Store.AuthenticateUnknown` | db.py:33-36 | an unknown username never authenticates |
| `Formatter.GeminiRole` | app.py:36 | `assistant` becomes `model`, and every other role, unexpected ones included, becomes `user` |
| `Formatter.FormattedAppend` | app.py:33-38 | formatting a concatenation gives the concatenation of the formatted parts |
| `Formatter.FormatHistoryForGemini` | app.py:28-38 | the loop's result equals the specification `Formatted`, has the input's length, and entry i becomes `{role: GeminiRole(role_i), parts: [text_i]}` |
| `Formatter.Recent` | app.py:182 | `history[-10:]` holds min(length, 10) entries, and entry i of it is entry length - min(length, 10) + i of the history |
| `Formatter.SentWindow` | app.py:179-182 | the turns sent after appending the prompt are at most 10, and the last is the prompt as a `user` turn |
| `Formatter.FormattedRecent` | app.py:182 | formatting the last 10 entries equals taking the last 10 formatted turns |
| `Conversation.ConcatAppend` | app.py:186-188 | the reply of two consecutive pieces of a stream is the first reply followed by the second |
| `Conversation.ConcatLength` | app.py:186-188 | the reply's length is the total length of the chunks, and a single chunk is the whole reply |
| `Conversation.AssembleReply` | app.py:186-188 | the accumulated `ai_response` is the in-order concatenation of all chunk texts, `""` for an empty stream |
| `Conversation.NatToString` | app.py:124 | `str(n)` is a non-empty string of decimal digits that starts with `0` only for 0 |
| `Conversation.NatToStringRoundTrip` | app.py:124 | reading the digits of `str(n)` back gives n |
| `Conversation.NewChatName` | app.py:124 | the new chat's name is `Chat ` followed by decimal digits with no leading zero that read back as the session count plus one |
| `Conversation.OptionNames` | app.py:85-100 | the selectbox options are the session names, each once |
| `Conversation.OptionNamesFirst` | app.py:85-100 | the first option is the name of the first listed session, since dict keys keep first-insertion order |
| `Conversation.OptionId` | app.py:85 | a name maps to an id exactly when some listed session has that name, and the id is that of the last such session |
| `Conversation.CurrentIndex` | app.py:102-105 | the index of the first option equal to the selected name, or 0 when no option equals it |
| `Conversation.ChatApp.constructor` | app.py:51 | a new browser session has no account, no selection and no cached history, over a valid store |
| `Conversation.ChatApp.SubmitCredentials` | app.py:57-72 | an empty field changes nothing; Register never logs in and reports only Registered or UsernameTaken (or the missing field); Login reports only LoggedIn or InvalidCredentials and never changes the store; Register reports a taken username and changes nothing, or adds exactly that user under a fresh id with the salted hash of the password, which then authenticates, adding only that id to the issued ids; Login sets the account exactly when authentication succeeds, and the store is unchanged; sessions and transcripts never change |
| `Conversation.ChatApp.SelectFirstOrCreate` | app.py:89-95 | selects the user's first listed session and leaves the store alone, or creates and selects "First Chat" with an empty transcript when the listing is empty; the selection is always listed for the user |
| `Conversation.ChatApp.InitSelection` | app.py:88-97 | a present selection is kept; otherwise sessions[0] is selected and the store is unchanged, or "First Chat" is created under a fresh id with an empty transcript, appended to the sessions and the user's only listed session, with users unchanged |
| `Conversation.ChatApp.ChooseSession` | app.py:114-120 | picking the current name changes nothing; picking another selects the id the options give it and drops the cached history |
| `Conversation.ChatApp.Selectbox` | app.py:99-120 | the selectbox opens on the selected name, or on the first option (the first listed session's name, `Conversation.OptionNamesFirst`) when that name is not listed; left untouched it changes nothing in the first case and selects the first option in the second; picking the selected name changes nothing; picking another name selects its id and drops the cached history; the selected name is always an option |
| `Conversation.ChatApp.NewChat` | app.py:123-130 | creates and selects a session named after the session count plus one, under a fresh id, appended to the user's listing with an empty transcript; users are unchanged; drops the cached history |
| `Conversation.ChatApp.RenameCurrent` | app.py:133-138 | an unchanged name does nothing; a new one renames the selected session in the store and the selection, keeping the cached history, users, transcripts and issued ids |
| `Conversation.ChatApp.DeleteCurrent` | app.py:141-155 | the deleted session leaves every listing and has no transcript; users are unchanged; the first remaining session of the user is selected with no other store change, or a new "First Chat" is created under a fresh id with an empty transcript; the cached history is dropped |
| `Conversation.ChatApp.Logout` | app.py:158-160 | the account, selection and cached history are all cleared, and the invariant still holds |
| `Conversation.ChatApp.LoadHistory` | app.py:166-167 | a cached history is kept; otherwise the stored transcript of the selected session is loaded |
| `Conversation.ChatApp.SubmitPrompt` | app.py:175-196 | an empty prompt does nothing; otherwise the prompt is appended, the formatted last 10 entries are sent, and on failure the store is untouched; on success the reply is the chunk concatenation, the history is old ++ [user prompt, assistant reply], and exactly that list is stored for the selected session; users, sessions and issued ids never change |
| `Conversation.FailedTurnThenTurn` | app.py:179-196 | after a failed turn and a successful one, the stored transcript holds the failed prompt, the new prompt and the reply |

## Left out

- Streamlit rendering: titles, chat bubbles, the spinner, `st.rerun` and `st.stop`. Each widget's value is a method argument, and each button press is a call of the matching method.
- The Gemini client (`genai.configure`, `start_chat`, `send_message`, app.py:21-22 and 43-46) is a foreign network call. Its reply is the `Stream` argument, so the model does not relate the reply's content to the turns sent.
- Connecting to MongoDB, environment variables and `load_dotenv` (db.py:7-17, app.py:17-18) are configuration and I/O.
- Failing database calls. Every collection call is modelled as succeeding, so the two-write operations are atomic in the model. The program does not roll back or clean up, so it can reach states the model cannot:
  - `create_chat_session` inserts the session (db.py:43) and then its transcript (db.py:48). If the second insert raises, a session is left with no transcript, and reading it returns `[]`.
  - `delete_chat_session` deletes the session (db.py:68) and then its transcript (db.py:69). If the second delete raises, the transcript is left with no session.
  - If `save_chat_history` raises after a good stream (app.py:196), the cached history holds the whole turn but the store does not.
  - The transcript conjunct of `Store.ChatStore.Valid` holds only under this assumption.
- bcrypt: `Hash` is a collision-free stand-in with the salt as an argument. bcrypt's one-wayness, cost factor and salt generation are not modelled, and so `Verify` accepts exactly the original password. Real bcrypt uses only the first 72 bytes of the UTF-8 password: older releases ignore the rest, and newer ones raise a ValueError for a longer password. The stand-in reads every character, and passwords are characters rather than UTF-8 bytes.
- `Store.VerifyExactly`: holds for real bcrypt only for passwords of at most 72 UTF-8 bytes. Two longer passwords with the same first 72 bytes verify against each other's digest, or raise an error.
- `Store.AuthenticateOnlyRegistered`: holds only for passwords of at most 72 UTF-8 bytes, for the same reason.
- ObjectIds are natural numbers. Converting them to and from strings is not modelled, nor is the exception `ObjectId()` raises on a malformed string.
- MongoDB's `find` order is modelled as insertion order.
- Concurrency is out of scope for this sequential model. Concurrent browser sessions that write the same transcript can lose updates. `create_user` (db.py:24-27) checks with `find_one` and then inserts, and no unique index backs the check, so two concurrent registrations of one username can both insert. `authenticate_user`'s `find_one` (db.py:33) then picks one of the two. The model's `users` map cannot hold two documents with one username, so it does not capture this race.
- `Store.ChatStore.GetChatHistory`: does not model a stored document that lacks the `chat_history` field (db.py:90). No operation of the system creates one.
- `Conversation.ChatApp.ChooseSession` and `Conversation.ChatApp.Selectbox`: require the picked name to be one of the options. This means the empty-options case is not modelled: there the selectbox returns None and line 117 raises a KeyError.
- `Conversation.ChatApp.InitSelection`: treats the two selection keys as one value, because the script always sets them together.
