# IRC-style chat server and client: a Dafny model

This project models the core of a small IRC-like chat system written in
C++: a TCP server that admits connections under generated `Client_<n>`
nicknames and handles text commands (`/whoami`, `/ping`, `/nickname`,
`/join`, `/mute`, `/unmute`, `/whois`, `/kick`, `/m`), and a client that
sends chat payloads in chunks and keeps a mirror of its own session
(nickname, channel, role and mute flag) from the lines the server sends
back.

Modules:

- `Protocol` (`protocol.dfy`): the MAX_MSG_SIZE limit (4096), the
  character classes of the ECMAScript regular expressions (`.` refuses
  `\n` and `\r`; `\s` is space, tab, `\n`, `\v`, `\f`, `\r`), the chunking
  of long payloads, and the decimal rendering behind `Client_<n>`.
- `ServerSpec` (`server_spec.dfy`): the server's state as a value
  (`Registry`: session records, the nickname map, the channel map, the
  nickname counter), its invariant `Valid`, the command recogniser
  `ParseCommand`, and one handler function per command. A handler returns
  the new registry and the effect: the lines it sends, or a relay of a
  payload to a channel.
- `ServerProps`, `ServerCommands` (`server_props.dfy`): every command keeps
  `Valid`, and the full outcome of each command (replies, refusals, state
  changes).
- `ServerCore` (`server.dfy`): the `Server` class. Its fields are the ones
  `handleMessage` and its helpers update in place. Every method is proved
  to move the abstract registry exactly as the handler functions say, and
  to write exactly the lines they say.
- `ClientSpec`, `ClientProps` (`client_spec.dfy`, `client_props.dfy`): the
  three `regex_search` patterns of the client's listening loop, as
  leftmost matches with greedy groups. Also the line classifier, the
  mirror update `OnLine`, and the loop over a run of reads (`Replay`),
  with round-trip and counterexample lemmas.
- `ClientCore` (`client.dfy`): the `Client` class. It covers `init`,
  `start`, `stop`, `messageServer`, `hasChannel`, `isMuted`, one turn of
  the listening loop, and the loop itself.
- `Conversation` (`conversation.dfy`): both sides together. It proves that
  the client's mirror follows the server's record for `/whoami`,
  `/nickname`, `/join`, `/mute` and `/unmute`. It exhibits three places
  where the two drift apart:
  - a kick leaves the kicked member's client believing it is still muted;
  - a channel named `#/youare` makes the join reply read as a rename;
  - a chat text `/youare root` renames every client that receives it.

Session records are kept in an arena, `sessions: seq<Session>`, indexed by
`SessionId`. The nickname map and the channel member maps hold indices
into it, where the source holds references to heap-allocated `SocketWithInfo`. The source
never frees a session record, so the arena only grows.

The outbound traffic is a log, `sent`, of (session, line) pairs. Its order
across different recipients is not specified (see Left out). Closed
sessions are collected in `closed`.

## Model

| member | source | states |
|---|---|---|
| Protocol.Chunks | Server.cpp:48-56 | a payload goes out as at least one piece; every piece fits MAX_MSG_SIZE, all but the last are full, the last is non-empty for a non-empty payload, and the pieces concatenate back to the payload |
| Protocol.ChunkCount | Server.cpp:50-55 | the number of lines is 1 for a payload that fits, otherwise the ceiling of its length over MAX_MSG_SIZE |
| Protocol.LinesStep | Server.cpp:50-55 | one turn of the chunking loop: a long payload sends one full piece behind the prefix and continues with the rest; a short one sends itself |
| Protocol.FourLinesForThreePiecesAndTen | Client.cpp:87-95 | a payload of 3*4096+10 characters is sent on four `/m ` lines |
| Protocol.NatToStringInjective | Server.cpp:531 | `std::to_string` of different counters gives different strings |
| Protocol.ClientNameInjective | Server.cpp:528-535 | `Client_<a>` equals `Client_<b>` exactly when a equals b |
| ServerSpec.FirstFreeIndex | Server.cpp:528-535 | the counter value getNextNickname settles on: the first k from the counter on whose `Client_<k>` is free; every value before it is taken |
| ServerProps.NamesInjective | Server.cpp:136-141 | in a valid registry, two nicknames never map to the same session |
| ServerProps.AdmitKeepsValid | Server.cpp:136-141 | admitting a connection keeps the registry invariant |
| ServerProps.CloseKeepsValid | Server.cpp:174-179 | an empty read (peer hung up) keeps the registry invariant |
| ServerProps.NicknameKeepsValid | Server.cpp:187-230 | `/nickname` keeps the registry invariant, including the rename inside the channel and the admin name |
| ServerProps.JoinKeepsValid | Server.cpp:232-291 | `/join` keeps the registry invariant |
| ServerProps.MuteKeepsValid | Server.cpp:293-391 | `/mute` and `/unmute` keep the registry invariant |
| ServerProps.KickKeepsValid | Server.cpp:437-481 | `/kick` keeps the registry invariant |
| ServerProps.DispatchKeepsValid | Server.cpp:172-526 | every line handled by handleMessage keeps the registry invariant |
| ServerCommands.ParseArgumentLines | Server.cpp:187-485 | `/nickname X`, `/join X`, `/mute X`, `/unmute X`, `/whois X`, `/kick X` and `/m X` are each recognised as that command with argument X, whatever earlier pattern they are tested against first |
| ServerCommands.ParsedLineShape | Server.cpp:172-526 | conversely, every recognised command comes from a line of exactly that shape, with a non-empty argument free of line breaks |
| ServerCommands.GarbageDropped | Server.cpp:180-523 | a line not starting with `/` changes nothing and gets no reply |
| ServerCommands.UnknownCommandDropped | Server.cpp:515-518 | an unrecognised `/` line changes nothing and gets no reply |
| ServerCommands.DispatchKeepsCounter | Server.cpp:172-526 | no command moves the nickname counter |
| ServerCommands.AdmitOutcome | Server.cpp:136-141 | admission appends one session named `Client_<k>` (k at least the counter, the name free), outside any channel with no flags, registers it, and moves the counter past k |
| ServerCommands.LaterAdmissionGetsOtherName | Server.cpp:528-535 | a later admission never gets the nickname of an earlier one |
| ServerCommands.WhoAmIAndPing | Server.cpp:181-185 | `/whoami` answers `/youare <nick>`, `/ping` answers `pong`, neither changes anything |
| ServerCommands.CloseOutcome | Server.cpp:174-179 | an empty read unregisters the session and takes its nickname out of every channel's member map, with no reply; channel names and admins (a departing admin's name included), the session records and the counter stay as they were |
| ServerCommands.NicknameOutcome | Server.cpp:187-230 | `/nickname X`: refused if taken, then if over 50 characters; otherwise re-registered and renamed in its channel (and as its admin), answered `/youare X`; the channel keeps its name, and every other channel and the counter are unchanged |
| ServerCommands.ChannelNameExamples | Server.cpp:240-243 | channel names follow RFC 1459: `#general` is valid, `general` and `#this,that` are not |
| ServerCommands.JoinOutcome | Server.cpp:232-291 | `/join C`: refused for an invalid name, then for a caller who administrates a channel; otherwise the caller leaves its channel (mute and admin flags dropped), joins C (created with the caller as admin if new) and is answered `/joined C admin|user` |
| ServerCommands.FirstJoinerAdministrates | Server.cpp:255-282 | the first to join a new channel becomes its admin; the second joiner does not |
| ServerCommands.RefusalCases | Server.cpp:293-330 | the shared moderation checks, in order: not yourself, caller is a channel admin, target is a member; when all pass, the target is a registered member of the caller's channel other than the caller |
| ServerCommands.MuteCases | Server.cpp:293-391 | mute/unmute: the three refusals, "already muted/unmuted", or the flag set and `/muted`/`/unmuted` sent to the target plus a confirmation to the caller |
| ServerCommands.MuteRoutes | Server.cpp:293-344 | `/mute T` and `/unmute T` reach the mute handler with the right direction |
| ServerCommands.MuteOutcome | Server.cpp:293-341 | `/mute T` with the literal replies of each case |
| ServerCommands.UnmuteOutcome | Server.cpp:342-391 | `/unmute T` with the literal replies of each case |
| ServerCommands.MuteTwiceRefused | Server.cpp:324-330 | muting the same member twice: the second is refused as already muted |
| ServerCommands.UnmuteTwiceRefused | Server.cpp:373-379 | unmuting the same member twice: the second is refused as already unmuted |
| ServerCommands.WhoisOutcome | Server.cpp:393-435 | `/whois T`: the three refusals or T's address; nothing changes |
| ServerCommands.KickOutcome | Server.cpp:437-481 | `/kick T`: the three refusals, or exactly T leaves the channel's members and exactly T's record loses channel, admin and mute flags; every other member, session and channel is unchanged, T stays registered and is sent `/kicked` |
| ServerCommands.SayOutcome | Server.cpp:483-518 | `/m P`: refused if longer than MAX_MSG_SIZE+100, then outside a channel, then while muted; otherwise relayed to the channel behind `/msg <nick> `; nothing changes |
| ServerCommands.SenderHearsItself | Server.cpp:511-512 | a relayed chat line reaches its own sender too, as the same chunked lines |
| ServerCore.FanoutIsMulticast | Server.cpp:58-67 | sending the chunked lines to each member once, in any order, is a multicast: every member gets exactly the lines, nobody else gets anything |
| ServerCore.Server.constructor | Server.cpp:12-19 | a new server has no sessions, nicknames or channels, counter 1, nothing sent |
| ServerCore.Server.SendMessage | Server.cpp:44-46 | one line written to one session; nothing else changes |
| ServerCore.Server.MessageClient | Server.cpp:48-56 | the session receives exactly `Lines(prefix, message)`, in order |
| ServerCore.Server.MulticastMessage | Server.cpp:58-67 | nothing for an unknown channel; otherwise what is sent is a multicast of the payload to the channel's members; the registry is unchanged |
| ServerCore.Server.NickNameAvailable | Server.cpp:536-538 | available exactly when no key is that nickname; in a valid registry, exactly when no live session carries it |
| ServerCore.Server.ChannelExists | Server.cpp:540-542 | a key lookup; in a valid registry, true exactly when some channel has that name, which is then a valid channel name |
| ServerCore.Server.GetNextNickname | Server.cpp:528-535 | returns `Client_<k>` for the first free k from the counter on; the counter ends at k+1 |
| ServerCore.Server.Admit | Server.cpp:136-141 | the registry moves as `OnAdmit` says, stays valid, and the new session is registered |
| ServerCore.Server.CloseClient | Server.cpp:110-121 | the nickname leaves the nickname map and the channel's member map; the session is closed |
| ServerCore.Server.HandleClose | Server.cpp:174-179 | the registry moves as `OnClose` says; the session is closed; nothing is sent |
| ServerCore.Server.HandleNickname | Server.cpp:187-230 | the registry and the sent lines move as `OnNickname` says |
| ServerCore.Server.HandleJoin | Server.cpp:232-291 | the registry and the sent lines move as `OnJoin` says |
| ServerCore.Server.CheckModeration | Server.cpp:293-330 | returns the refusal of the shared checks, or the target when they pass |
| ServerCore.Server.HandleMute | Server.cpp:293-391 | the registry and the sent lines move as `OnMute` says |
| ServerCore.Server.HandleWhois | Server.cpp:393-435 | the sent lines are `OnWhois`'s; the registry is unchanged |
| ServerCore.Server.HandleKick | Server.cpp:437-481 | the registry and the sent lines move as `OnKick` says |
| ServerCore.Server.HandleSay | Server.cpp:483-518 | the registry is unchanged; what is sent realises `OnSay`'s effect (a reply or a multicast) |
| ServerCore.Server.HandleModeration | Server.cpp:293-481 | for `/mute`, `/unmute`, `/whois` and `/kick`, the registry stays valid and moves as `Execute` says, and what is sent realises its effect |
| ServerCore.Server.HandleCommand | Server.cpp:172-526 | for any recognised command, the registry stays valid and moves as `Execute` says; what is sent realises its effect; only `Close` closes the session |
| ServerCore.Server.HandleMessage | Server.cpp:172-526 | the registry stays valid and moves as `Dispatch` says; what is sent realises its effect; only the empty read closes the session |
| ClientSpec.LineRunEnd | Client.cpp:159-161 | the end of the longest `.` run: no line break before it, a line break or the end at it |
| ClientSpec.WordEnd | Client.cpp:211-212 | the end of the longest `\S` run: no whitespace before it, whitespace or the end at it |
| ClientSpec.LastSpace | Client.cpp:170-171 | the last space in a range, if any, and no space after it |
| ClientProps.SearchNone | Client.cpp:161 | with no match at any position, `regex_search` finds nothing |
| ClientProps.SearchLeftmost | Client.cpp:161 | `regex_search` returns the match at the first position where there is one |
| ClientProps.SearchSound | Client.cpp:161 | whatever `regex_search` returns is a match at a position where the keyword occurs |
| ClientProps.KeywordAbsent | Client.cpp:161 | a line without the keyword never matches |
| ClientProps.YouAreRoundTrip | Client.cpp:159-168 | `/youare N` is read back as nickname N |
| ClientProps.JoinedRoundTrip | Client.cpp:170-184 | `/joined C R` is read back as channel C and role R when C is a whitespace-free word not ending in `/youare` |
| ClientProps.ChatRoundTrip | Client.cpp:211-218 | `/msg F T` is shown as `F: T` when F is a whitespace-free word and neither F nor T spells out a reply keyword |
| ClientProps.ChatTextCanRename | Client.cpp:159-168 | `/msg eve /youare root` is read as a rename to `root` |
| ClientProps.ChannelNameCanRename | Client.cpp:159-168 | `/joined #/youare <role>` is read as a rename to the role word, for either role |
| ClientProps.SpacedNicknameSplits | Client.cpp:211-218 | `/msg a b hi` (sender `a b`) is shown as sender `a`, text `b hi` |
| ClientProps.ControlLines | Client.cpp:186-209 | `/kicked` clears channel and role but keeps the mute flag; `/muted` and `/unmuted` set and clear it; none shows anything |
| ClientProps.PlainLineShown | Client.cpp:220-222 | a line not starting with `/` is shown as it is and changes nothing |
| ClientProps.EmptyReadStops | Client.cpp:152-157 | the empty read stops the loop and changes nothing |
| ClientProps.EventCases | Client.cpp:151-222 | only the empty read stops the loop; only chat and plain lines show something; lines of other kinds leave the mirror alone |
| ClientProps.ReplayAppend | Client.cpp:142-224 | the loop over two runs of reads is the loop over the first, then over the second from where it left off, unless it stopped |
| ClientProps.NothingAfterClose | Client.cpp:152-157 | after the server closes the connection nothing more is read, and the loop has stopped |
| ClientProps.NeverStops | Client.cpp:142-157 | a run of reads without an empty one never stops the loop |
| ClientProps.TimeoutsIgnored | Client.cpp:151 | reads that time out change nothing |
| ClientCore.Client.constructor | Client.cpp:11-26 | a new client is disconnected and not listening, with an open fresh socket and a fresh session record; nothing sent or shown |
| ClientCore.Client.Init | Client.cpp:18-26 | disconnected, fresh socket, fresh session record; listening flag and logs untouched |
| ClientCore.Client.SendMessage | Client.cpp:83-85 | one line written to the server; nothing else changes |
| ClientCore.Client.Start | Client.cpp:28-66 | a failed connection stops the client, re-initialises it and returns the status; a successful one sends `/whoami`, then connects and starts listening, and returns 0 |
| ClientCore.Client.Stop | Client.cpp:97-110 | not listening, not connected, socket closed; returns 0 |
| ClientCore.Client.MessageServer | Client.cpp:87-95 | the server receives exactly `Lines("/m ", message)`, in order |
| ClientCore.Client.HasChannel | Client.cpp:123-131 | true exactly when the client believes it is in a channel |
| ClientCore.Client.IsMuted | Client.cpp:138 | reports the mirror's mute flag |
| ClientCore.Client.ListenStep | Client.cpp:150-222 | nothing unless connected and a line was read; then the mirror, the chat window and the listening flag move as `OnLine` says |
| ClientCore.Client.Listen | Client.cpp:142-224 | the loop over a run of reads ends in the state `Replay` gives: mirror, lines shown, stopped or not |
| Conversation.ClientNameIsWord | Server.cpp:531 | every allocated nickname is non-empty, whitespace-free and does not end in `/youare` or `/joined` |
| Conversation.ConnectLearnsNickname | Client.cpp:62 | after admission, the `/whoami` reply sets the client's nickname to the one the server allocated |
| Conversation.RenameSync | Server.cpp:187-230 | an accepted `/nickname X` sets the client's nickname to X, as the server holds it |
| Conversation.JoinSync | Server.cpp:232-291 | an accepted `/join C` sets the client's channel and role to what the server holds, unless C ends in `/youare` |
| Conversation.MuteSync | Server.cpp:293-341 | `/muted` sets the target's mirror flag as the server holds it |
| Conversation.UnmuteSync | Server.cpp:342-391 | `/unmuted` clears the target's mirror flag as the server holds it |
| Conversation.ChatSync | Server.cpp:483-518 | a one-line payload from an allocated nickname is shown as `<nick>: <payload>` by every receiving client |
| Conversation.KickLeavesStaleMute | Server.cpp:437-481 | kicking a muted member clears its flag on the server but not in its client's mirror |
| Conversation.JoinReplyCanRename | Server.cpp:232-291 | joining `#/youare`, new or existing, is accepted, but the reply renames the client to its role word instead of recording the channel |
| Conversation.ChatCanRenameOthers | Server.cpp:483-518 | a member saying `/youare root` renames every receiving client to `root` |
| Conversation.ClientChunksAccepted | Client.cpp:87-95 | each line the client sends for a non-empty payload is read by the server as `/m` with the matching piece, never too long |
| Conversation.EmptyChatDropped | Client.cpp:87-95 | an empty payload still goes out, as `/m `, and the server drops it silently |

## Left out

- Sockets, `select`, threads, mutexes, the curses UI (`GUI::log`, the
  prompt), `main.cpp`, `util.cpp` and the server's accept and listen
  loops. A socket read is a parameter: `ReadResult`, either nothing
  within the timeout or one line.
- Read framing: one `recv` is taken to be one line. The read cap of
  MAX_MSG_SIZE+100 bytes and the cut at an embedded NUL are not modelled.
- Characters are Dafny `char`s, not bytes. Multi-byte encodings are not
  modelled.
- The order in which `unordered_map` iterates is not modelled.
  `MulticastMessage` serves members in an unspecified order, and
  `IsMulticast` states what each recipient receives, not the interleaving.
- The nickname counter is an unbounded `nat`. The source's `int` can
  overflow, and that is not modelled.
- The session a `/whois` reports comes from `getsockname`, the local end of
  the socket. It is an opaque `address` field given on admission.
- The declaration of `SocketWithInfo` is not part of this model. A fresh
  record is taken to have an empty nickname and channel and false flags.
- Session records are values in an arena, not heap objects. The source
  frees nothing, so aliasing between records never matters.
- ServerCore.Server.MulticastMessage: requires the channel's member map to
  be injective. This holds in every valid registry (`MembersDistinct`).
- ClientCore.Client.Listen: models the loop of a connected client only.
  The source's loop spins without reading while not connected.
- ClientCore.Client.Start: the connection attempt is a parameter (its
  status). The `address` overload of `start` is not modelled.
