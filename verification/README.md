# Chat server, crypto driver and web bridge: a Dafny model

The repository is a chat system in four parts: a TCP server with one thread for each client
(`chat_server.c`), a Linux character device for AES-CBC and MD5 (`driver/crypto_driver.c`), a Python
bridge from WebSockets to the server (`backend/chat_backend.py`), and the browser code that sorts the
lines it receives (`web/static/js/chat.js`). This project models their behaviour and proves properties
of the model.

- **The server as a transition system** (`ChatServer`). The accept loop and any number of handler
  threads work on a table of 100 slots, a heap of clients, the open descriptors and a counter. An
  action is one mutex-protected function, or one unlocked write or send; a handler's step is a
  thread-local turn with at most one effect on what the threads share. malloc and accept may return
  an address or a descriptor again once it has been freed or closed. Following or freeing a freed
  client puts the system in a fault state, so memory safety is a theorem (`SlotSafety`), not an
  assumption. `Logins` proves who can be in the room, `Descriptors` who reads what is sent to a slot,
  `History` the order of broadcasts and the balance of joins and leaves.
- **The atomic chat room** (`ChatRoom`, `Room`): seats and per-seat outboxes, without threads, pointers
  or counters. `Refinement` proves that every interleaving of the server is a sequence of room
  operations. `Walks` proves why each of the three walks over the table under the mutex may count as
  one action although other threads set `authenticated` and send replies without the mutex.
- **The server byte by byte** (`Commands`, `Connections`, `Dialogue`). From the bytes of a received chunk to
  the bytes of every send, with the whole state after it: each command, joins and leaves, hang-ups, cleanup
  and refused connections; and the login dialogue, whatever the other threads do in between.
- **The table as it is written** (`ClientTable`): an array, a counter, loops and a 4096-byte buffer with
  a moving offset, each method proved against the same room functions that the transition system uses.
- **The text protocol** (`Bytes`, `Utf8`, `Protocol`, `WebText`, `RoundTrips`, `EndToEnd`): the server
  works on bytes, the bridge and the browser on Unicode text. The round trips hold for every text,
  with the exact condition under which the browser gives a text back unchanged.
- **The crypto device** (`Cbc`, `CryptoSession`, `CryptoRuns`, `DriverLogins`): one session for each open
  file, CBC mode as in section 6.2 of NIST SP 800-38A over an abstract block cipher, the server's three
  wrappers, and the password check with the driver behind it.
- **The bridge** (`Bridge`, `BridgeLoops`): the shared connection map with its two cleanup paths, and the
  two receive loops.

## What the code does not give

Each of these is proved with the exact condition under which the property does hold, and, where that is
not plain from the condition, with an input or a run for which it fails.

- A text with U+2028 or U+2029 inside, or U+FEFF in front, passes the bridge and the server but not the
  browser's pattern: `RoundTrips.BroadcastRoundTrip`, `RoundTrips.LineSeparatorIsLost`,
  `RoundTrips.LineSeparatorCanBeTyped`, `RoundTrips.ByteOrderMarkCanBeTyped`.
- A handler closes its socket before it clears its slot. What is sent to a slot is read by the slot's own
  client and by no other exactly outside that window; inside it nobody reads it, or another client does
  (`Descriptors.ReadByItsOwnOutsideWindow`). For every login that works there is a run in which that
  other client has not logged in: `Descriptors.StrangerReadsUsersSlot`.
- The AES wrappers fail on every call until some caller sets a key, and the server never does;
  `aes_decrypt_msg` also needs a vector that some call has latched, and whole blocks. The repository's
  README says that messages are encrypted; no code path of the server calls the wrappers:
  `CryptoRuns.WrappersNeedSetKey`.
- The bridge closes a socket a second time exactly when `handle_login` raises after it has rejected or
  registered the connection: `Bridge.ClosedExactlyOnceIff`, `Bridge.SocketsCanBeClosedTwice`.
- The bridge's comment promises a disconnect event on an unexpected loss; every exit of the receive loop
  clears the flag that the event needs: `BridgeLoops.TcpReceiver`.
- A private delivery loses its final newline exactly when it overflows the print buffer, which a command
  that fits one chunk can make it do: `Protocol.PrivateLineKeepsNewline`, `RoundTrips.NewlineCanBeLost`.
- Another password than the built-in one logs in exactly when it has the same hash:
  `Accounts.BuiltInLogins`, `Accounts.BuiltInPairs`.

## Model

| member | source | states |
|---|---|---|
| Bytes.CutLine | chat_server.c:406-407 | the line is the part of a chunk before its first CR, LF or NUL |
| Bytes.CutLineIs | chat_server.c:406-407 | no other prefix of the chunk has that property |
| Utf8.DecodeEncode | backend/chat_backend.py:115 | decoding with ignored errors gives back every encoded text |
| Utf8.EncodeInjective | backend/chat_backend.py:325 | different texts are sent as different bytes |
| Utf8.DecodeIgnores | backend/chat_backend.py:115 | a byte that cannot start a character is ignored, and nothing else with it |
| Utf8.FirstAsciiByte | chat_server.c:418-429 | a byte search for an ASCII character stops at its first occurrence in the text, with the encodings of what is before and behind it on the two sides |
| Utf8.FirstLineEnd | chat_server.c:406-407 | the line cut of an encoded text is the encoding of what is before its first CR, LF or NUL |
| Protocol.ClippedLinesKeepNewline | chat_server.c:435-472 | for names of at most 31 bytes broadcasts and confirmations always keep their newline and stay within 4094 and 4090 bytes |
| Protocol.PrivateLineKeepsNewline | chat_server.c:329-332 | a private delivery keeps its newline exactly when 17 + name + text is at most 4095 |
| Protocol.ListBody | chat_server.c:296-312 | for any number of users and any name lengths the offset stays at most BUFFER_SIZE - 2 |
| Protocol.ListLine | chat_server.c:314-317 | the list always ends in a newline and leaves room for its terminator |
| Protocol.ListLineExactIff | chat_server.c:296-317 | the list is the comma-joined names exactly when they fit in 4084 bytes |
| Protocol.ListLineExact | chat_server.c:289-324 | with 100 clients and 31-byte names every space guard succeeds, within 3209 bytes |
| Protocol.ParseSentText | chat_server.c:405-411 | a sent line is a broadcast exactly when it does not start with a slash |
| Protocol.ParseSentPrivate | chat_server.c:405-420 | a sent private command reaches the target parser with everything after its prefix |
| Protocol.ParsePrivateIff | chat_server.c:417-430 | target and text are recovered exactly when the target has no space and at most 31 bytes |
| WebText.StripTakesSpace | backend/chat_backend.py:115 | stripping takes whitespace off the two ends and nothing else, and leaves none there |
| WebText.StripLine | backend/chat_backend.py:115 | cleaning removes exactly the server's newline from a trimmed line |
| WebText.SplitJoined | backend/chat_backend.py:120-121 | splitting undoes joining for separator-free names |
| WebText.CleanedConcat | backend/chat_backend.py:121 | every part of a list is cleaned for itself |
| WebText.SpacesDiffer | web/static/js/chat.js:140 | Python and the browser's pattern agree on spaces but for six characters |
| RoundTrips.UserListRoundTrip | backend/chat_backend.py:115-124 | a list that fits is read back name for name in slot order |
| RoundTrips.BroadcastRoundTrip | web/static/js/chat.js:154-171 | a broadcast is recovered with sender and text exactly when the text is safe for the browser, whatever kind of line it looks like |
| RoundTrips.PrivateFromRoundTrip | web/static/js/chat.js:138-145 | the same for a private delivery |
| RoundTrips.PrivateToRoundTrip | web/static/js/chat.js:146-153 | the same for a confirmation |
| RoundTrips.LineSeparatorIsLost | web/static/js/chat.js:136-153 | a private text with a line end or separator inside is shown to nobody, and its confirmation neither |
| RoundTrips.LineSeparatorCanBeTyped | backend/chat_backend.py:304-325 | such a text passes the input handler and the server's line cut |
| RoundTrips.ByteOrderMarkCanBeTyped | backend/chat_backend.py:304-325 | so does a text that starts with a byte order mark, which the browser's pattern eats |
| RoundTrips.NewlineCanBeLost | chat_server.c:329-332 | a private command that fits one chunk and parses can be delivered without its newline |
| RoundTrips.JoinIsShown | web/static/js/chat.js:156-169 | the line about a join arrives whole and is shown as a system message in its words, exactly when it is safe for the browser |
| RoundTrips.LeaveIsShown | web/static/js/chat.js:156-169 | the same for a leave |
| RoundTrips.AnswerIsShown | web/static/js/chat.js:162-163 | a printable answer of the server is shown as a system message without its tag |
| RoundTrips.BrokenTagIsShown | web/static/js/chat.js:156-170 | a line with an empty tag is shown whole |
| RoundTrips.UntaggedIsShown | web/static/js/chat.js:167-170 | a line that no pattern knows is shown whole |
| RoundTrips.LowercaseNames | chat_server.c:58-62 | the names of the database meet every condition that the round trips put on names |
| RoundTrips.MessageCommand | backend/chat_backend.py:325 | a typed text becomes a broadcast of its bytes exactly when it does not start with a slash |
| RoundTrips.PrivateCommandRoundTrip | backend/chat_backend.py:385 | the bridge's private command parses back to target and text exactly for space-free targets of at most 31 bytes |
| Accounts.InitUserDatabase | chat_server.c:207-218 | every account gets the hash that the driver returned, or keeps its zero hash |
| Accounts.AuthenticateUser | chat_server.c:221-238 | succeeds exactly when the hash was computed and some account has the name and the hash |
| Accounts.BuiltInLogins | chat_server.c:207-238 | with a working driver a login passes exactly when it has an account's name and a password with the hash of that account's password |
| Accounts.BuiltInPairs | chat_server.c:207-238 | for a password that shares its hash with no other built-in password that means exactly the three built-in pairs |
| Accounts.BuiltInPair | chat_server.c:58-62 | the names, and the passwords at the same places |
| DriverLogins.DriverLogin | chat_server.c:128-238 | with the driver behind the hashing at start and at login, in any session: a login passes exactly when its call works and it has an account's name and a password with the MD5 hash of that account's |
| Accounts.UnhashedAccount | chat_server.c:211-217 | an account whose hashing failed at start accepts no password with a nonzero hash |
| Room.FirstEmpty | chat_server.c:245-256 | the least free slot, or -1 exactly when all are taken |
| Room.FirstNamed | chat_server.c:336-344 | the lowest authenticated slot with the name, or -1 exactly when there is none |
| Room.Deliver | chat_server.c:277-283 | a broadcast reaches every authenticated slot but the sender's |
| Room.UsersInOrder | chat_server.c:299-311 | the listed names are those of the authenticated slots, each once for its slot and from the lowest to the highest |
| ChatRoom.SayReaches | chat_server.c:273-286 | a broadcast adds one entry to the outbox of every user but the speaker, and none to an empty seat's or a guest's |
| ClientTable.Table.AddClient | chat_server.c:241-257 | puts the client in the least free slot and counts it, or changes nothing when the table is full |
| ClientTable.Table.RemoveClient | chat_server.c:260-270 | clears a taken slot and uncounts it, or changes nothing |
| ClientTable.Table.SendMessageToAll | chat_server.c:273-286 | the loop is one broadcast of the room: one send to every authenticated client but the sender's |
| ClientTable.Table.PrintUserList | chat_server.c:291-317 | the buffer loop prints the specified list and a terminator behind it |
| ClientTable.Table.SendUserList | chat_server.c:289-324 | the list goes to the asking slot, if it is taken, and to no other |
| ClientTable.Table.SendPrivateMessage | chat_server.c:327-349 | one send, to the lowest slot with the name; success exactly when there is one and the send works |
| SlotSafety.AddKeepsSafe | chat_server.c:241-257 | add_client takes the least free slot, and fails exactly when the counter is at 100 |
| SlotSafety.RemoveKeepsSafe | chat_server.c:491-493 | remove_client clears the caller's own entry and no other |
| SlotSafety.UnregisterKeepsSafe | chat_server.c:587-592 | so does the accept loop after a failed thread creation |
| SlotSafety.StepKeepsSafe | chat_server.c:352-593 | every action of every thread keeps ownership, liveness and the counter |
| SlotSafety.ReachableIsSafe | chat_server.c:240-270 | in every reachable state no freed client has been used, a taken slot points to a live client that knows its index, is in no other slot and is held by one live thread and no other, and the counter is the number of taken slots |
| Logins.StepKeepsVetted | chat_server.c:387-390 | every action keeps the link between names, passwords and `authenticated` |
| Logins.UserIsVetted | chat_server.c:386-391 | an authenticated slot belongs to a handler that received the name and the password of one account |
| Logins.OnlyDatabaseUsers | chat_server.c:221-238 | in every reachable state every authenticated slot shows a name of the database |
| Logins.AuthenticatedNeverReverts | chat_server.c:388-484 | once set, `authenticated` holds until the client is freed |
| Dialogue.OwnStepsDecide | chat_server.c:352-402 | whatever the other threads do, a handler's own steps decide its state, its client and what the client is told; a guest is sent nothing else |
| Dialogue.LoginIsChecked | chat_server.c:361-387 | two chunks with or without line ends: the handler has name and password as typed, and admits exactly when an account has the name and the password's hash |
| Dialogue.LoginIsAnswered | chat_server.c:361-402 | under any interleaving the client is told the two prompts and then AUTH_SUCCESS exactly when the login passes, AUTH_FAILED otherwise |
| Dialogue.LoginCanTakePlace | chat_server.c:361-402 | every handler that asks for a name can take any two fitting chunks through to the verdict |
| Connections.UserIsAnnounced | chat_server.c:394-397 | the join line goes to every other user and to nobody else |
| Connections.HangUpLeaves | chat_server.c:361-405 | wherever a handler waits for its peer, a hang-up sends it to the cleanup |
| Connections.CleanupRemovesItsOwn | chat_server.c:482-493 | the cleanup sends the leave line to every other user, for a guest to nobody, removes the one slot, client and descriptor, and changes nothing else |
| Connections.RefusedLeavesNoTrace | chat_server.c:557-584 | a connection that finds the table full leaves the state as it was |
| Connections.AbandonedLeavesNoTrace | chat_server.c:557-592 | so does one whose thread cannot be created |
| Refinement.StepSimulates | chat_server.c:352-497 | every action is one operation of the atomic room or leaves it as it is |
| Refinement.ServerRefinesRoom | chat_server.c:241-593 | every run of the server is a run of the atomic room |
| Refinement.OnlyUsersAreSentTo | chat_server.c:273-349 | in every reachable state the next action sends a slot at most one thing, and a broadcast, whisper or list only if its client has logged in with a name and password of the database |
| Walks.WalkIsAtomic | chat_server.c:273-349 | a walk with unlocked actions inside it equals the early actions, the walk in one piece and the late actions: for a broadcast, for a search that stops at its first hit, and for a list with the send that ends it |
| Walks.AtomicIsOneOperation | chat_server.c:273-349 | the walk in one piece is the room's operation |
| Walks.PlacingKeepsOrder | chat_server.c:388-391 | for every slot the early and then the late actions are all unlocked actions on it, in their own order |
| Walks.UnlockedIsLocal | chat_server.c:352-593 | every action that the server takes without the mutex is one local action of the room, or none |
| Walks.LocalIsElsewhere | chat_server.c:352-478 | it touches another slot than that of a handler that is walking |
| Descriptors.StepKeepsExclusive | chat_server.c:491-493 | the open descriptors are those of the clients whose sockets are not closed, one each |
| Descriptors.ReadByItsOwnOutsideWindow | chat_server.c:491-492 | in every reachable state sends to a slot are read by its own client and no other exactly when its handler does not stand between close and remove_client; there, nobody or another client reads them |
| Descriptors.NextClientReads | chat_server.c:491-577 | in that window the next accepted client, not logged in, can become the one reader of what is sent to the slot |
| Descriptors.WindowCanShare | chat_server.c:491-592 | after its add_client two slots hold one descriptor |
| Descriptors.WindowIsReachable | chat_server.c:352-492 | a client that connects and hangs up leads to the window |
| Descriptors.StrangerReadsUsersSlot | chat_server.c:352-577 | for every login that works there is a run after which a slot still shows the user, so that broadcasts are sent to it, and a client that has not logged in reads them |
| History.HearsTheLog | chat_server.c:273-286 | while a slot stays a user's it is sent exactly the others' broadcasts, in log order |
| History.TotalOrder | chat_server.c:273-286 | over any interval two users' slots are sent the same sequence of third parties' broadcasts |
| History.HandlerLife | chat_server.c:387-489 | a handler broadcasts one join, then talks, then one leave, or nothing; at its end it has left exactly if it joined |
| History.JoinsAndLeavesBalance | chat_server.c:394-489 | joins minus leaves of a name is the number of handlers in the chat under it |
| EndToEnd.ListEndToEnd | chat_server.c:405-416 | the bridge's /list request, from its bytes: the asking slot alone gets a list that the bridge reads as the users in slot order |
| EndToEnd.BroadcastEndToEnd | chat_server.c:405-478 | a typed text, from the bytes that the bridge sends: it reaches exactly the other users, and their browsers show the speaker and the text |
| EndToEnd.PrivateEndToEnd | chat_server.c:405-445 | a private command, from the bytes that the bridge sends: the target's lowest slot alone gets it, then the sender its answer, and both browsers show name and text |
| Commands.AnswerStaysPrivate | chat_server.c:436-463 | answers extend the sender's own outbox alone |
| Commands.WaitsUnchanged | chat_server.c:405-480 | between a handler's receive and its act the other threads leave its command alone |
| Commands.ChunkIsBroadcast | chat_server.c:405-478 | a received line without a leading slash is sent, with the name, to every other user and to nobody else, and nothing else changes |
| Commands.EmptyChunkIsIgnored | chat_server.c:405-409 | an empty line has no effect |
| Commands.ListChunkIsAnswered | chat_server.c:412-416 | for /list the user alone gets the list of all users |
| Commands.HelpChunkIsAnswered | chat_server.c:450-459 | for /help the user alone gets the five lines |
| Commands.UsageChunkIsAnswered | chat_server.c:417-448 | for /msg without a second space the user alone gets the usage |
| Commands.UnknownChunkIsAnswered | chat_server.c:460-463 | for any other command the user alone is told so |
| Commands.ChunkIsWhispered | chat_server.c:417-445 | a private command reaches the lowest slot of a user with the name's first 31 bytes and nobody else, and the user alone is told so, or that there is no such user |
| Cbc.DecryptEncrypt | driver/crypto_driver.c:129-232 | CBC decryption undoes encryption for every cipher, key and vector |
| Cbc.EncryptedBlock | driver/crypto_driver.c:129-182 | each block is enciphered together with the block before it, the first with the vector |
| Cbc.DecryptedBlock | driver/crypto_driver.c:184-232 | each block is deciphered and combined with the block before it |
| Cbc.WrongVector | driver/crypto_driver.c:210-215 | with the right key a wrong vector always spoils the first block |
| Cbc.WrongKey | driver/crypto_driver.c:204 | for two different keys some cipher spoils the first block |
| Cbc.DecryptsUnderEveryCipherIff | driver/crypto_driver.c:129-232 | every cipher decrypts back exactly when the data is empty or key and vector agree |
| CryptoSession.File.constructor | driver/crypto_driver.c:235-252 | a new file has a zero session with nothing set |
| CryptoSession.File.Release | driver/crypto_driver.c:255-267 | releasing wipes the session |
| CryptoSession.File.Ioctl | driver/crypto_driver.c:270-417 | every call changes the session and answers as specified, failures and lengths beyond the area included |
| CryptoSession.File.EncryptIoctl | driver/crypto_driver.c:328-370 | the vector is the request's, the session's or a fresh one, and the session latches a fresh one even when the cipher then fails |
| CryptoSession.File.DecryptIoctl | driver/crypto_driver.c:372-410 | decryption never changes the session and needs a vector |
| CryptoRuns.WithinLimits | chat_server.c:137-194 | a length that passes the wrappers' own check never leaves the areas of the driver's record |
| CryptoRuns.SessionOverRuns | driver/crypto_driver.c:282-353 | over any calls the key is the last one set, `key_set` holds exactly from the first successful SET_KEY and `iv_set` from the first call that latches a vector, and from then on only SET_IV changes it |
| CryptoRuns.LastSetIsInUse | driver/crypto_driver.c:283-296 | the key in use is the last one set, and the vector too once one is set |
| CryptoRuns.DrawnIsInUse | driver/crypto_driver.c:297-353 | without a SET_IV the vector is the one drawn for the first call that needed one |
| CryptoRuns.EncryptAnswers | driver/crypto_driver.c:343-370 | the returned vector is the request's, the session's or the drawn one, which the session then keeps; the output is the CBC encryption under it and the request's or the session's key |
| CryptoRuns.GetIvAnswers | driver/crypto_driver.c:297-305 | GET_IV answers the session's vector, or a drawn one that the session keeps |
| CryptoRuns.SettersAnswer | driver/crypto_driver.c:282-296 | SET_KEY and SET_IV succeed exactly when their copy works; a failed one and an unknown command change nothing |
| CryptoRuns.EncryptFails | driver/crypto_driver.c:328-370 | each failure of an encryption has its error code |
| CryptoRuns.DecryptFails | driver/crypto_driver.c:372-410 | a decryption fails with -EINVAL also without a vector and for anything but whole blocks |
| CryptoRuns.Md5MsgHashes | chat_server.c:128-153 | md5_hash gives the hash of exactly the given bytes in every session and leaves the session alone; it fails exactly when the length or a service does |
| CryptoRuns.IvIsStable | driver/crypto_driver.c:297-353 | between two SET_IVs every GET_IV and every encryption without its own vector uses one vector |
| CryptoRuns.SessionRoundTripIff | driver/crypto_driver.c:328-410 | an encrypted record fed back after any calls is recovered under every cipher exactly when it pads to nothing, or vector and key are its own or still the session's |
| CryptoRuns.SessionRoundTrip | driver/crypto_driver.c:328-410 | in particular for every cipher when each of the two has a nonzero prefix or was not set again |
| CryptoRuns.WrapperRoundTripIff | chat_server.c:156-204 | the wrappers give back the zero-padded input under every cipher exactly when it is empty or the session's vector is unchanged |
| CryptoRuns.WrappersNeedSetKey | chat_server.c:156-204 | on a newly opened file, after any calls, each wrapper works exactly when the length fits, a key was set and the kernel's services work; decryption also needs whole blocks and a latched vector |
| Bridge.ClosedOnceByEitherPath | backend/chat_backend.py:148-196 | whichever cleanup path comes first, and however often either comes, a registered session loses its entry and has its socket closed once, and only by its own cleanup |
| Bridge.Registry.HandleDisconnect | backend/chat_backend.py:183-196 | closes and removes the session's entry if it is there |
| Bridge.Registry.ReceiverCleanup | backend/chat_backend.py:148-157 | the same at the receiver's end |
| Bridge.StepKeepsConsistent | backend/chat_backend.py:148-298 | every step of every thread keeps the account of entries and closes |
| Bridge.ClosedExactlyOnceIff | backend/chat_backend.py:148-298 | for every socket the bridge connects: the receiver's end removes the entry, and once the login is over and its entry gone the socket was closed exactly once, exactly when handle_login did not raise after rejecting or registering it |
| Bridge.SocketsCanBeClosedTwice | backend/chat_backend.py:260-298 | two runs, one with a rejected and one with a registered login, close a socket twice |
| Bridge.LoginClosesOnce | backend/chat_backend.py:183-276 | an ordinary login, a browser that leaves and the receiver's end close the socket once |
| Bridge.RejectionClosesOnce | backend/chat_backend.py:279-285 | so does an ordinary rejection |
| BridgeLoops.RecvUntil | backend/chat_backend.py:60-89 | the text of the shortest sequence of receives that brings the expected text or the end |
| BridgeLoops.PiecesArrive | backend/chat_backend.py:60-89 | a text that arrives in two pieces with a timeout between them is put together again |
| BridgeLoops.TcpReceiver | backend/chat_backend.py:92-168 | one event for each chunk with something other than whitespace, each in the place of its call, up to the end of the stream; the disconnect event is never sent |
| BridgeLoops.LineForwarded | backend/chat_backend.py:113-130 | a trimmed line that arrives as one chunk becomes one chat message, unchanged, in its place |
| BridgeLoops.BroadcastForwarded | backend/chat_backend.py:126-130 | a broadcast becomes one that the browser shows under its speaker, exactly if it is safe |
| BridgeLoops.ListForwarded | backend/chat_backend.py:119-124 | a printed list becomes one list event with its names |

## Left out

- Sockets, real timeouts, `bind` and `listen`: accept, recv and send are inputs and outcomes of the
  actions; a failed accept or malloc changes nothing that the model holds and is no action.
- A prompt and the recv that follows it are one action, and so are a recv and the thread-local parsing
  after it; console output is not modelled.
- Weak memory effects and the write of `client->thread` by pthread_create: the model is sequentially
  consistent.
- `Walks` proves the interleavings of one walk on the room and that the server's unlocked actions are
  such local actions; there is no second transition system with one action for each visit of a slot.
- AES and MD5 themselves: an abstract keyed permutation and an abstract hash; kernel allocation and user
  copies are outcomes, and a failed copy changes nothing.
- CryptoSession.File.Ioctl: does not say what a length beyond the record's area does, because the driver
  does not check it and C leaves it open; the reply is then `Overrun`, which promises nothing.
- CryptoRuns.SessionRoundTripIff: states recovery for all ciphers together, because for one given cipher
  a wrong key may happen to decrypt a given block.
- Texts cut inside a character by a print buffer, and lines that arrive in several chunks or share one:
  the round trips are for one whole line in one chunk, as the code assumes.
- `handle_login`'s credential check and prompts, `handle_get_users`, the Flask and SocketIO plumbing and
  the browser's page code.
- `server/chat_server_old.c`, both command-line clients, `common/`, module init and exit, build scripts
  and documentation.
