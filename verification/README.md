# sLink: a verified model

sLink is a chat application: a server with a network thread, a database thread and an update thread, and clients that
join with a username and a password, exchange chat messages and show each other's profile pictures. This project models
the parts of it that carry state or arithmetic and proves what they are for:

- **The server** (`ServerSystem.dfy` and the `Server*.dfy` files beside it). The three threads interleave freely. Every
  asio handler, every locked region and every queue operation is one step. An inductive invariant over all steps gives,
  for every run: one answer per join, distinct connected usernames, a legal message language per session, one order of
  broadcasts, authenticated members, and no message lost between `send` and the client's inbox. A measure shows that the
  server comes to rest and has then answered everybody. `Server.dfy` holds the methods themselves as a class; each is
  proved to be a path of those steps.
- **The connections** (`Writer.dfy`, `Session.dfy`, `Client.dfy`, `Lines.dfy`, `Reader.dfy`, `Drains.dfy`,
  `Delivery.dfy`). The asynchronous writers and line readers as handler-level state machines over any chunking of the byte stream.
- **The wire format** (`Json.dfy`, `Message.dfy`, `Picture.dfy`, `Base64.dfy`). Messages and pictures survive the trip;
  Base64 follows section 4 of RFC 4648, string escapes section 7 of RFC 8259. `JsonStandard.dfy`, `JsonObject.dfy` and
  `Base64Standard.dfy` say in the standards' own terms what the texts are.
- **The password hash** (`Words.dfy`, `PasswordHasher.dfy`), with the machine's 32-bit arithmetic; `PasswordVectors.dfy`
  measures it from outside and gives digests.
- **The database** (`Store.dfy`, `StoreRefinement.dfy`, `StoreRuns.dfy`, `Database.dfy`, `DatabaseRuns.dfy`). The tables
  refine a map from usernames to accounts; the worker loop serves its queue in order and ends.
- **The queue between threads** (`SafeQueue.dfy`), the **mip levels** of a texture (`MipChain.dfy`) and the **frames in
  flight** (`Frames.dfy`), the last two with the device replaced by ghost state.

## What is assumed

The theorems about runs of the server assume two things of the clients, stated as `WellBehaved`:

- H1: a connection sends at most one login or register message.
- H2: no two joins that are on their way share a username.

For five of the things they are assumed for it is proved what holds without them, over every run:

- The null session. A run that comes to rest without another fault has reached it if and only if H2 was broken
  (`NullSessionExactly`), that is, if and only if a callback overwrote a pending entry (`NullSessionByOverwriting`).
- Distinct names. The names of all that have been let in stay distinct if and only if no session that has been let in
  joins again under the name of another one, which a server could check before taking the message
  (`NamesDistinctExactly`).
- Answers. In a run that comes to rest without a fault every join has been answered, each once (`AnswersAtRest`); under
  H2 alone the answers sent and owed are as many as the joins at every moment (`TallyAt`).
- The outgoing language. In a run that comes to rest without a fault every session was sent a word of the grammar if and
  only if no connection joined twice (`LanguageExactly`).
- The order of chats. The chats a session has been sent are exactly the broadcasts made while it was a member, in the one
  order of the broadcasts (`ChatsOfMembers`); H1 and H2 make that one contiguous piece (`TotalOrder`).

`NullSessionWithoutH2`, `SecondJoinClashes` and `SecondLogin` are runs from empty tables in which just one of the two is
broken. The closing of ended sessions and the authenticity of members are proved under both.

The theorems also speak of states before which no step has ended in a fault, that is, in what the original leaves
undefined or lets escape as an exception: a kick of somebody who is not connected, a malformed picture, or a message
with a text that is not UTF-8. The last of these happens exactly if the operator kicks a member with such a reason
(`BadTextExactly`). Usernames and passwords may hold NUL bytes where this is stated (`CStr` is what a C string keeps
of a text); SQLite calls succeed.

Where the code differs from what one would expect, the model follows the code and says exactly when the expectation
holds. Draining a read buffer is line by line only if the buffer does not end inside a line (`DrainIsLineByLine`,
`ChunksExactly`). A stream of messages cut into buffers in any way is drained without failure if and only if each buffer
is empty or ends in a newline (`DrainsExactly`); a message whose newline alone is late is enough to fail
(`LateNewline`). A registered password logs in only if its hash is that of its C string (`LoginAfterRegister`,
`NulPasswordWitness`). And a picture may be saved by any connection whose last join, accepted or not, was under the name
(`RefusedSaves`, `SavesClaimed`, `PictureAtStep`).

## Steps of the server

| step | what it stands for |
|---|---|
| Connect | the accept handler, `server/src/server/Server.cpp:75-117` |
| Receive | one message handled, `server/src/session/Session.cpp:122-149` with the callbacks `server/src/server/Server.cpp:85-103` |
| PushJoin | the push after the pending entry is written, `server/src/server/Server.cpp:85-97` |
| EndOfFile | the failed read and its callback, `server/src/session/Session.cpp:89-93`, `server/src/server/Server.cpp:137-142` |
| RunTask | a posted closure, `server/src/session/Session.cpp:28-34`, `server/src/session/Session.cpp:41-49` |
| Written | the completion of a write, `server/src/session/Session.cpp:100-111` |
| TakeRequest, Answer | one round of the worker, `server/src/database/Database.cpp:26-75` |
| PopResponse | `server/src/server/Server.cpp:44-50` |
| FindPending | `server/src/server/Server.cpp:198-206` |
| CheckConnected | `server/src/server/Server.cpp:208-236` with `server/src/server/Server.cpp:155-169` |
| Accept, Welcome | the locked region and the send of `server/src/server/Server.cpp:119-135` |
| Reject, Drop | `server/src/server/Server.cpp:144-153` |
| SendPicture | `server/src/server/Server.cpp:171-194` |
| PopMessage, Broadcast, SaveBroadcast | `server/src/server/Server.cpp:55-62`, `server/src/server/Server.cpp:31-40` |
| Kick | `server/src/server/Server.cpp:239-263` |

## Model

| member | source | states |
|---|---|---|
| ServerRuns.RunInv | server/src/server/Server.cpp:31-263 | under H1 and H2 the invariant of all three threads holds after every run, from any tables |
| ServerUpdateProof.StepInv | server/src/server/Server.cpp:31-263 | every step of every thread, at any moment, keeps the invariant |
| ServerRuns.NullSessionUnreachable | server/src/server/Server.cpp:196-237 | under H1 and H2 no response is ever handled without its session |
| ServerUpdateProof.FindPendingSound | server/src/server/Server.cpp:198-206 | the response being handled finds its entry, and taking it keeps entries and joins on their way in one-to-one correspondence |
| ServerRuns.PendingIsInFlight | server/src/server/Server.cpp:85-97 | the keys of the pending map are exactly the usernames whose join is on its way, none twice, and each entry is the session that joined under that name |
| ServerRuns.OneAnswer | server/src/server/Server.cpp:196-237 | a session has been sent exactly one accept or reject if it has joined and does not wait, and none otherwise |
| ServerRuns.SettledAnswersAll | server/src/server/Server.cpp:42-63 | with empty queues and nothing in hand no entry is pending and every join has been answered once |
| ServerRuns.OutgoingLanguage | server/src/server/Server.cpp:119-153 | what a session is sent is a prefix of REJECT or ACCEPT (CHAT or PICTURE)* KICK?, nothing before the join |
| ServerRuns.ParseMeans | server/src/server/Server.cpp:119-263 | the invariant's description of legal logs is the language of the automaton, state by state |
| ServerRuns.ConnectedNamesDistinct | server/src/server/Server.cpp:119-169 | connected usernames are pairwise distinct and no session is a member twice, whatever falls between the check and the insertion |
| ServerUpdateProof.AcceptedExactly | server/src/server/Server.cpp:208-236 | a session is accepted exactly if its login or registration succeeded and no member has its username; otherwise it is rejected with the reason that applies |
| ServerUpdateProof.OnlyOneLeaves | server/src/server/Server.cpp:137-142 | erasing a session, or its first occurrence, removes it and leaves the others in order |
| ServerRuns.TotalOrder | server/src/server/Server.cpp:31-40 | the chats sent to a session are the contiguous piece of the one broadcast log between its acceptance and its removal |
| ServerOrder.ChatsOfMembers | server/src/server/Server.cpp:31-40 | in every run, with neither H1 nor H2, the chats a session has been sent are exactly the broadcasts made while it was a member, each once, in the order of the broadcasts |
| ServerOrder.OnceAt | server/src/server/Server.cpp:119-169 | in every run no session is a member twice, and the one being accepted is none |
| ServerRuns.SameOrder | server/src/server/Server.cpp:31-40 | two sessions were sent the same chats in the same order while both were members |
| ServerRuns.ChatsConserved | server/src/server/Server.cpp:55-62 | the chats that arrived are those broadcast, the one in hand and those in the inbox, in order, none lost or repeated |
| ServerProgress.OwnStepsEnd | server/src/server/Server.cpp:42-63 | what the threads do on their own, without clients, completions of writes or the operator, ends: the measure of a state bounds the steps that can follow |
| ServerProgress.RestAnswersAll | server/src/server/Server.cpp:42-63 | where it ends every session that joined has been sent exactly one answer and every chat that arrived has been broadcast |
| ServerProgress.StepAdvances | server/src/server/Server.cpp:42-63 | each such step does some of the work left or brings the update thread's round on, although an acceptance asks for two pictures per member and a broadcast sends one message per member |
| ServerStanding.AcceptedHearsAll | server/src/server/Server.cpp:119-142 | an accepted session still read from is a member and has been sent every chat broadcast since its acceptance |
| ServerStanding.MembersNotRead | server/src/server/Server.cpp:119-142 | in any run a member is not read from exactly if its end of file came before an acceptance of it |
| ServerStanding.EndedSessionsClose | server/src/session/Session.cpp:26-35 | a rejected or kicked session gets its last message written and its socket closed once its closures have run and its writes succeeded |
| ServerStanding.StepStanding | server/src/server/Server.cpp:31-263 | every step keeps: accepted and read from means member, ended means disconnect asked for |
| ServerStanding.PictureReachesRecipient | server/src/server/Server.cpp:171-194 | a picture is sent to the member with the recipient's name and to nobody else |
| ServerStanding.KickReachesOne | server/src/server/Server.cpp:239-263 | the kick is sent to the member with the name and to nobody else |
| ServerSent.SentStep | server/src/server/Server.cpp:31-263 | what every step of every thread adds to every session's log, with all four fields of the message: the welcome, the reject, the picture, the broadcast, the kick, and otherwise nothing |
| ServerSent.RejectsExplained | server/src/server/Server.cpp:196-237 | in every run each reject that was sent has an empty sender, and its content is "User is already connected" if the response found under the session's pending name was a success, and that response's message otherwise |
| ServerSent.RejectTexts | server/src/server/Server.cpp:208-236 | so each says that the user is connected, could not be found, has another password, or already exists |
| ServerSent.LoginTexts | server/src/database/Database.cpp:240-303 | when a login is answered with which words |
| ServerSent.RegisterTexts | server/src/database/Database.cpp:251-265 | when a registration is answered with which words |
| ServerUpdateProof.PostAllLogs | server/src/server/Server.cpp:31-40 | a broadcast is sent once to every member and to nobody else |
| ServerRequests.RequestsConserved | server/src/server/Server.cpp:85-103 | the joins and pictures of the clients reach the database thread once each and in order |
| ServerRequests.BroadcastsAreSaved | server/src/server/Server.cpp:55-62 | every broadcast is handed to the database once, in the order of the broadcasts |
| ServerSystem.LookupsAsk | server/src/server/Server.cpp:123-128 | accepting asks, for each member, for both pictures with the right recipients, and for nothing else |
| ServerRuns.WrittenIsPrefixOfSent | server/src/session/Session.cpp:26-52 | what is written to a socket is a prefix of what was sent; a socket the server closed got everything, its last message included |
| ServerDelivery.ClientSeesPrefix | client/src/client/Client.cpp:124-147 | in any chunking a client's inbox, parsed, is the first messages sent to its session, in order |
| ServerDelivery.ClientsSeeOneOrder | client/src/client/Client.cpp:124-147 | the chats in every client's inbox are the broadcasts from its acceptance on, without gap, in the one order |
| ServerAuth.MembersAreAuthentic | server/src/server/Server.cpp:196-237 | in every reachable state the account under a member's username has the hash of the password that member sent |
| ServerAuth.AuthStep | server/src/server/Server.cpp:75-237 | every step keeps: joins lead back to their session, successes only for the right password, members vouched for |
| ServerHypotheses.JoinedMeans | server/src/session/Session.cpp:126-137 | the flag H1 is about is set exactly if the connection has sent a join in the run |
| ServerClashes.SecondJoinClashes | server/src/session/Session.cpp:128-137 | without H1, though with H2, a run from empty tables in which two sessions register under any two names ends with two members of one name |
| ServerClashes.StepExactly | server/src/session/Session.cpp:128-137 | a step, of any thread, keeps the names of all that have been let in apart exactly if it is not the join of such a session under the name of another one |
| ServerClashes.NamesDistinctExactly | server/src/server/Server.cpp:119-169 | in every run, with or without H1 and H2, the names of all that have been let in stay distinct if and only if no join clashes when it is read |
| ServerClashes.ConnectedApart | server/src/server/Server.cpp:119-169 | connected usernames are distinct in every run without a clash |
| ServerClashes.JoiningOnceNeverClashes | server/src/session/Session.cpp:126-137 | H1 rules clashes out |
| ServerHypotheses.NullSessionWithoutH2 | server/src/server/Server.cpp:85-97 | without H2 a run from empty tables, with one join per connection, ends in the null session |
| ServerNames.NullSessionExactly | server/src/server/Server.cpp:85-97 | a run that comes to rest without another fault has reached the null session if and only if a join was read while another one under its name was on its way; neither H1 nor H2 is assumed |
| ServerNames.BrokenNamesFault | server/src/server/Server.cpp:196-237 | every run in which H2 was broken ends in a fault if it comes to rest |
| ServerNames.MatchedAt | server/src/server/Server.cpp:85-97 | under H2 alone every name is on its way exactly as often as it is a key of the pending map, and the null session is not reached |
| ServerNames.BalanceStep | server/src/server/Server.cpp:196-206 | a join adds one to a name's joins on their way and makes it a key, an answer that finds the key takes one from both, and every other step changes neither |
| ServerNames.NullSessionByOverwriting | server/src/server/Server.cpp:85-97 | the same condition as the callback can see it: a join is read while its name is a key of the pending map |
| ServerAnswers.TallyAt | server/src/server/Server.cpp:196-237 | under H2 alone, at any moment, the accepts and rejects a session has been sent, its pending entries and the one in hand are together as many as the joins it has sent |
| ServerAnswers.AnswersAtRest | server/src/server/Server.cpp:196-237 | in every run that comes to rest without a fault, with neither H1 nor H2 assumed, a session has been sent exactly as many answers as it sent joins |
| ServerAnswers.TallyStep | server/src/server/Server.cpp:119-263 | while H2 holds a join adds one to what a session has been sent and is owed, and no other step of any thread changes it |
| ServerAnswers.LanguageExactly | server/src/server/Server.cpp:119-263 | in every run that comes to rest without a fault every session was sent a word of the grammar if and only if no connection joined twice |
| ServerAnswers.SecondLogin | server/src/session/Session.cpp:128-132 | a run from empty tables with H2 in which the only member logs in again under its own name and is sent an accept and a reject |
| ServerSystem.StepTyped | server/src/server/Server.cpp:31-263 | no step leaves a reference to a session that does not exist or an unsound writer, with or without H1 and H2 |
| ServerTexts.BadTextExactly | server/src/session/Session.cpp:41-49 | a run that comes to rest without another fault has met a text that cannot be serialized if and only if a member was kicked with a reason that is not UTF-8 |
| ServerTexts.BadTextUnreachable | server/src/session/Session.cpp:41-49 | without such a kick no message the server sends fails to be serialized, whatever the clients send |
| ServerClaims.UserIsClaimed | server/src/session/Session.cpp:128-137 | in any run the user of a connection is the one of its last join, accepted or not |
| ServerClaims.SavesClaimed | server/src/session/Session.cpp:142-145 | a picture message asks for a save under the name the connection last joined with |
| ServerClaims.PictureAtStep | server/src/database/Database.cpp:418-450 | in any run an account's picture changes exactly when a save of pixels under its name is answered, whoever asked |
| ServerStore.StoreFollows | server/src/database/Database.cpp:26-75 | between any two states of a run the tables change by handling the requests answered in between, in that order, and the responses taken and queued are those of that handling |
| ServerStore.LoginAnswered | server/src/database/Database.cpp:230-303 | in any run, once a registration has succeeded a later login under the name succeeds if and only if its password as a C string hashes like the registered one |
| ServerStore.PictureAnswered | server/src/database/Database.cpp:168-198 | in any run a client's saved picture is what later lookups of the user are answered with, until another is saved under the name |
| ServerStore.TakenInTurn | server/src/server/Server.cpp:44-53 | the update thread takes a response in its turn: when as many have been taken as were queued before it, it is the next |
| ServerStore.PixelsSent | server/src/server/Server.cpp:171-194 | the member the picture is for, and nobody else, is then sent a message that parses back to the pixels |
| Server.Server.Update | server/src/server/Server.cpp:42-63 | one frame empties both queues, broadcasts the whole inbox in order, lies on a path of the update thread, keeps the invariant and then never meets a null session |
| Server.Server.HandlePendingSessions | server/src/server/Server.cpp:196-237 | finds the session exactly if the name is pending, and then answers, and tells the roster, as the steps decide |
| Server.Server.OnClientAccept | server/src/server/Server.cpp:119-135 | the whole new state: picture requests for all members, the new member, the welcome in its words to the session and to nobody else, the name for the roster |
| Server.Server.RequestPictures | server/src/server/Server.cpp:123-128 | the loop appends exactly the lookups between the new member and the others |
| Server.Server.OnClientReject | server/src/server/Server.cpp:144-153 | the whole new state: a reject with an empty sender and the reason as content is sent to the session and added to no other log, then the close is posted, then the roster is told "Rejected: <name> reason: <reason>" |
| Server.Server.OnClientDisconnected | server/src/server/Server.cpp:137-142 | the whole new state: the session is a member no more and the roster is told its name |
| Server.Server.IsUserConnected | server/src/server/Server.cpp:155-169 | true exactly if some member has the username |
| Server.Server.Find | server/src/server/Server.cpp:159-162 | the first member with the name, or the end if there is none |
| Server.Server.Broadcast | server/src/server/Server.cpp:31-40 | the loop posts the message to every member in order |
| Server.Server.HandleProfilePictureDataRequest | server/src/server/Server.cpp:171-194 | only the recipient, if a member, is sent the picture |
| Server.Server.KickUser | server/src/server/Server.cpp:239-263 | a member is sent the reason, closed after it and erased, and the roster is told; nothing happens exactly if there is no such member |
| Server.PathInv | server/src/server/Server.cpp:42-63 | paths of the update thread keep the invariant |
| Writer.WriterRun | server/src/session/Session.cpp:37-52 | in every run, written then queued is what was posted; a write is outstanding exactly while the queue is not empty, one at a time |
| Writer.FailedStaysSilent | server/src/session/Session.cpp:97-112 | after a failed write none is started; after the close nothing is written |
| Writer.CloseWaitsForWrites | server/src/session/Session.cpp:26-35 | the asked close comes after everything posted before it is written, and does come |
| Writer.StepFacts | server/src/session/Session.cpp:26-112 | only posting changes what was posted, only asking sets the closing mark and its place |
| Session.Session.RunSend | server/src/session/Session.cpp:41-49 | the closure of `send` is the writer's step, or changes nothing if the text cannot be written |
| Session.Session.RunDisconnectAfterWrite | server/src/session/Session.cpp:28-34 | the closure of `disconnectAfterWrite` is the writer's step |
| Session.Session.OnWritten | server/src/session/Session.cpp:100-111 | the completion handler is the writer's step |
| Session.Session.HandleMessage | server/src/session/Session.cpp:114-152 | the drain loop reacts to every line of the buffer in order, up to the first that cannot be parsed, and fails exactly if there is one; the inbox is given the chat lines among those handled, unchanged and in order |
| Session.ChatsPassedOn | server/src/session/Session.cpp:122-141 | among what reacting to lines passes on, the chat lines are those handled lines that parse as chats, unchanged and in order; it fails exactly if a line cannot be parsed |
| ServerLines.DrainReceives | server/src/session/Session.cpp:122-148 | draining lines and receiving their messages one by one, as the interleaved system does, come to the same user, inbox, requests and pending names |
| ServerLines.ChatsReachInbox | server/src/server/Server.cpp:55-57 | the inbox grows by what parsing the passed-on chat lines again gives, in order |
| Session.DrainIsLineByLine | server/src/session/Session.cpp:118-122 | draining takes exactly the terminated lines if and only if the buffer is empty or ends in a newline |
| Session.ChunksExactly | server/src/session/Session.cpp:118-122 | draining two buffers one after the other finds the lines of their concatenation if and only if one is empty or the first ends in a newline |
| Session.TerminatedChunks | server/src/session/Session.cpp:79-95 | so chunks cut at line ends are handled like their concatenation, state and events |
| Session.CutLineWitness | server/src/session/Session.cpp:118-122 | a buffer with a complete line and the beginning of another one, as the read handler can get it, makes two lines of the cut one |
| Session.CutMessageStops | server/src/session/Session.cpp:122-124 | a buffer that ends inside a message, after any complete lines, makes the drain loop fail |
| Drains.DrainsExactly | server/src/session/Session.cpp:79-152 | for any messages and any cut of their stream into buffers: all can be drained if and only if each is empty or ends in a newline, and then user and callbacks are those of the messages one by one |
| Drains.CutStops | server/src/session/Session.cpp:118-124 | a first buffer cut inside a line, its newline included, makes it or a later one fail |
| Drains.LateNewline | server/src/session/Session.cpp:118-124 | a buffer with a whole message and another without its newline is drained, and the newline after it makes the next drain fail |
| Drains.MessagesDrain | server/src/session/Session.cpp:122-149 | whole messages never make the drain loop fail |
| Client.Client.Send | client/src/client/Client.cpp:46-59 | posts the text with its newline, or nothing if it cannot be written |
| Client.Client.RunTask | client/src/client/Client.cpp:50-58 | the posted closure is the writer's step on the oldest text |
| Client.Client.OnWritten | client/src/client/Client.cpp:110-119 | the completion handler is the writer's step; an error closes the socket |
| Client.Client.OnRead | client/src/client/Client.cpp:128-144 | one line leaves the buffer for the inbox, or the socket is closed |
| Client.Client.OnJoin | client/src/client/Client.cpp:149-174 | the join line, then the picture line; both parse back, the picture to the client's pixels, empty without one |
| Lines.SplitUnique | client/src/client/Client.cpp:128-139 | a stream of lines and a rest splits back into those lines and that rest |
| Lines.PrefixOfLines | client/src/client/Client.cpp:128-139 | the terminated lines of any part of the stream are the first lines |
| Reader.NothingLost | client/src/client/Client.cpp:124-147 | inbox and buffer together are exactly the bytes that arrived |
| Reader.Framing | client/src/client/Client.cpp:124-147 | for every chunking a waiting reader's inbox is the terminated lines received and its buffer the unterminated rest |
| Delivery.EndToEnd | server/src/session/Session.cpp:37-112 | for every run of a writer and every chunking of what arrived, the inbox parsed is the first messages posted, all of them once all has arrived |
| Delivery.ReceivesPrefix | client/src/client/Client.cpp:124-147 | the same for any messages whose stream is received in part |
| Json.StringRoundTrip | common/message/Message.cpp:61-69 | exactly the well-formed UTF-8 texts can be written; they are read back unchanged and written without control characters |
| Json.IntRoundTrip | common/message/Message.cpp:65-65 | every integer is read back as written |
| Message.MessageRoundTrip | common/message/Message.cpp:53-89 | exactly the messages with valid texts can be serialized; parsing gives them back, for every command and 64-bit timestamp, and the text holds no newline (which field stands under which key: JsonObject.MessageWritten) |
| Message.PrefixFree | common/message/Message.cpp:72-89 | no text that can be parsed is the beginning of another one |
| Message.CutMessage | common/message/Message.cpp:72-89 | no proper beginning of a serialized message can be parsed |
| Message.ParsedValid | common/message/Message.cpp:72-89 | whatever can be parsed has well-formed texts and can be written |
| JsonObject.MessageWritten | common/message/Message.cpp:57-69 | a reader of JSON objects that knows no keys finds in the text of any valid message exactly "command", "content", "sender_name" and "time_stamp" with its four fields |
| JsonObject.MessageTaken | common/message/Message.cpp:76-88 | any text taken for a message is the object of these four fields, the command being the low byte of its number |
| JsonObject.ChatText | common/message/Message.h:47-53 | the whole text of one chat message, in the order of the keys |
| JsonStandard.CharWrites | common/message/Message.cpp:69-69 | what is accepted as a character is the shortest UTF-8 form of a code point that is no surrogate |
| JsonStandard.WritesChar | common/message/Message.cpp:69-69 | every such form is accepted |
| JsonStandard.EncodedWrites | common/message/Message.cpp:76-76 | a code point is encoded in its shortest form |
| JsonStandard.CodeEscapes | common/message/Message.cpp:69-69 | control characters without a short escape are written as codes, all others as they are |
| JsonStandard.UnescapeCode | common/message/Message.cpp:76-76 | a code of four digits in either case is that code point; a lone second surrogate is an error |
| JsonStandard.UnescapePair | common/message/Message.cpp:76-76 | a surrogate pair is the code point above 0xFFFF that UTF-16 writes so |
| JsonStandard.PrintIntIs | common/message/Message.cpp:65-65 | an integer is printed as its sign and its decimal digits without leading zeros |
| Picture.PictureRoundTrip | common/profile_picture/ProfilePicture.cpp:44-50 | any pixels come back from the picture object, whose text has no NUL byte |
| JsonObject.PictureWritten | server/src/server/Server.cpp:186-189 | the reader finds in a picture object exactly "base64_pixels" with the Base64 text of the pixels |
| JsonObject.PictureTaken | common/profile_picture/ProfilePicture.cpp:44-50 | any text taken for a picture is the object of this field, and the pixels are the decoding of its text |
| PictureFidelity.PixelsComeBack | client/src/client/Client.cpp:155-167 | over any sequence of requests a registered client's pixels, if any, come back byte for byte to whoever asks, until a picture is saved under that name |
| PictureFidelity.SavedPictureIsFound | server/src/database/Database.cpp:418-450 | a saved picture is what every later lookup answers with, after any requests that save no other for the user |
| PictureFidelity.PictureArrives | server/src/session/Session.cpp:142-145 | the client's picture message is parsed back and makes the session ask for exactly that picture to be saved |
| PictureFidelity.PictureDelivered | server/src/server/Server.cpp:171-194 | the server's picture message is parsed back by the client to the pixels |
| Base64.Encode | common/utility/base64/Base64.cpp:5-24 | the accumulator loop over a 32-bit int is the regrouping of the bits by six, without overflow of the addition at any length (what the regrouping gives: Base64Standard) |
| Base64.PadText | common/utility/base64/Base64.cpp:21-22 | pads to a multiple of four with the fewest signs |
| Base64.DecodingTable | common/utility/base64/Base64.cpp:29-31 | the table maps each letter to its value and every other byte to -1 |
| Base64.Decode | common/utility/base64/Base64.cpp:26-46 | the accumulator loop is the regrouping by eight of the letters before the first other byte, without overflow |
| Base64.RoundTrip | common/utility/base64/Base64.cpp:5-46 | decoding an encoding gives every byte sequence back |
| Base64Standard.LetterIs | common/utility/base64/Base64.h:10 | the letter of a value is the one at that place in A-Z, a-z, 0-9, plus and slash |
| Base64Standard.EncodeThree | common/utility/base64/Base64.cpp:5-24 | three bytes are the letters at the four quarters of their 24 bits, in arithmetic |
| Base64Standard.EncodeTwo | common/utility/base64/Base64.cpp:19-22 | two bytes at the end are three letters and one sign |
| Base64Standard.EncodeOne | common/utility/base64/Base64.cpp:19-22 | one byte at the end is two letters and two signs |
| Base64Standard.EncodeAppend | common/utility/base64/Base64.cpp:5-24 | groups of three bytes are encoded one after the other |
| Base64Standard.DecodeFour | common/utility/base64/Base64.cpp:32-44 | any four letters are the three bytes of their 24 bits, in arithmetic |
| Base64Standard.DecodeThree | common/utility/base64/Base64.cpp:32-44 | three letters at the end are two bytes, the low bits of the last one ignored |
| Base64Standard.DecodeTwo | common/utility/base64/Base64.cpp:32-44 | two letters at the end are one byte |
| Base64Standard.DecodeOne | common/utility/base64/Base64.cpp:32-44 | a single letter at the end is nothing |
| Base64Standard.DecodeAppend | common/utility/base64/Base64.cpp:32-44 | groups of four letters are decoded one after the other |
| Base64Standard.DecodeStops | common/utility/base64/Base64.cpp:34-35 | nothing from the first byte outside the alphabet on is looked at |
| PasswordHasher.Hash | server/src/database/password_hasher/PasswordHasher.cpp:14-47 | both loops compute the specified hash, 32 digits long (which hash that is: PasswordVectors) |
| PasswordHasher.HashIsState | server/src/database/password_hasher/PasswordHasher.cpp:33-46 | equal hashes mean equal states before the final mix and back |
| PasswordHasher.AbsorbInjective | server/src/database/password_hasher/PasswordHasher.cpp:27-30 | a byte's update is injective on the state, the multiplication being by an odd number |
| PasswordHasher.MixInjective | server/src/database/password_hasher/PasswordHasher.cpp:33-36 | the final mix is injective |
| PasswordHasher.PrintInjective | server/src/database/password_hasher/PasswordHasher.cpp:38-42 | fixed-width digits determine the state |
| PasswordHasher.CommonSuffix | server/src/database/password_hasher/PasswordHasher.cpp:14-47 | hash(p + s) = hash(q + s) if and only if hash(p) = hash(q) |
| PasswordHasher.LocalChangeChangesHash | server/src/database/password_hasher/PasswordHasher.cpp:14-47 | passwords that differ only within up to three neighbouring bytes hash alike if and only if they are equal |
| PasswordHasher.CutPasswordWitness | server/src/database/password_hasher/PasswordHasher.cpp:14-47 | a password and its part before a NUL byte can hash differently |
| PasswordVectors.RotateLeft5 | server/src/database/password_hasher/PasswordHasher.cpp:9-12 | bit k goes to bit k + 5 modulo 32 |
| PasswordVectors.RotateLeft7 | server/src/database/password_hasher/PasswordHasher.cpp:9-12 | bit k goes to bit k + 7 modulo 32 |
| PasswordVectors.RotateLeft11 | server/src/database/password_hasher/PasswordHasher.cpp:9-12 | bit k goes to bit k + 11 modulo 32 |
| PasswordVectors.RotateLeft13 | server/src/database/password_hasher/PasswordHasher.cpp:9-12 | bit k goes to bit k + 13 modulo 32 |
| PasswordVectors.RotateLeft17 | server/src/database/password_hasher/PasswordHasher.cpp:9-12 | bit k goes to bit k + 17 modulo 32 |
| PasswordVectors.HexWordReads | server/src/database/password_hasher/PasswordHasher.cpp:41-42 | a word is printed as eight lower-case digits that read back, high digit first, as the word |
| PasswordVectors.PrintReads | server/src/database/password_hasher/PasswordHasher.cpp:38-42 | the four words are printed one after the other, first to last |
| PasswordVectors.DigestOfNothing | server/src/database/password_hasher/PasswordHasher.cpp:14-47 | the digest of the empty password: start words, final mix and digits |
| PasswordVectors.DigestOfA | server/src/database/password_hasher/PasswordHasher.cpp:14-47 | the digest of "a": one round |
| PasswordVectors.DigestOfHighByte | server/src/database/password_hasher/PasswordHasher.cpp:14-47 | the digest of the bytes 255 and 97: unsigned bytes, in order |
| StoreRefinement.HandleRefines | server/src/database/Database.cpp:305-383 | every request on well-formed tables does what it does on the map from usernames to accounts, errors included, and keeps them well-formed: distinct usernames, no dangling row, one picture each |
| StoreRuns.RunRefines | server/src/database/Database.cpp:305-383 | the same over every sequence of requests |
| StoreRuns.PasswordKept | server/src/database/Database.cpp:117-143 | no request changes an account's password |
| StoreRuns.PictureKept | server/src/database/Database.cpp:418-450 | an account's picture stays while no save under its name is handled |
| StoreRuns.PictureAfter | server/src/database/Database.cpp:418-450 | what each request does to an account's picture: only a save under the name, of pixels, replaces it |
| StoreRuns.RefusedSaves | server/src/database/Database.cpp:418-450 | a save does not ask for the password: a user whose login is refused replaces the account's picture too |
| StoreRuns.LoginAfterRegister | server/src/database/Database.cpp:230-303 | after a registration and any requests a login succeeds if and only if the password as a C string hashes like the registered one |
| StoreRuns.RegisteredPasswordWorks | server/src/database/Database.cpp:230-303 | a registered password without NUL logs in for ever |
| StoreRuns.ChangedPasswordFails | server/src/database/Database.cpp:267-303 | one that differs in up to three neighbouring bytes never does |
| StoreRuns.NulPasswordWitness | server/src/database/Database.cpp:230-303 | a password with a NUL byte can be registered and then refused |
| StoreRuns.HandleAnswers | server/src/database/Database.cpp:305-356 | a join gets exactly one answer of its kind and name, anything else none |
| StoreRuns.OneAnswerPerJoin | server/src/database/Database.cpp:305-356 | one answer per join in request order over every sequence |
| Database.ServeDecreases | server/src/database/Database.cpp:50-56 | every round lowers the weight in which an empty picture save counts twice, so draining ends |
| Database.Database.RunLoop | server/src/database/Database.cpp:26-75 | the loop with its handlers computes the specified run |
| Database.Database.CheckUserPassword | server/src/database/Database.cpp:267-303 | true exactly if the stored hash is that of the password as a C string |
| Database.Database.CheckUserLoginInfo | server/src/database/Database.cpp:230-249 | the error that applies, or none |
| Database.Database.HandleLoginRequest | server/src/database/Database.cpp:305-325 | one response, success or the error |
| Database.Database.InsertUser | server/src/database/Database.cpp:117-143 | a new row with the hash of the whole password |
| Database.Database.HandleRegisterRequest | server/src/database/Database.cpp:327-356 | refuses a known name, otherwise inserts it; one response |
| Database.Database.HandleMessageSaveRequest | server/src/database/Database.cpp:358-416 | a row for the sender's id, nothing for an unknown sender |
| Database.Database.HandleProfilePictureSaveRequest | server/src/database/Database.cpp:363-450 | replaces the user's picture, or changes nothing |
| Database.Database.HandleUserProfilePictureRequest | server/src/database/Database.cpp:368-383 | one response if there is a picture, otherwise none |
| DatabaseRuns.RunServesInOrder | server/src/database/Database.cpp:26-75 | the run serves exactly the requests before the shutdown in order, then the lookups they re-queued |
| DatabaseRuns.RunAnswersJoins | server/src/database/Database.cpp:26-75 | the responses of a run answer exactly the joins before the shutdown, in request order |
| SafeQueue.NoLostWakeup | common/utility/safe_queue/SafeQueue.h:21-67 | while anybody sleeps the queue is no longer than the notifications owed plus the threads awake, and with a value queued some thread can go on |
| SafeQueue.FirstInFirstOut | common/utility/safe_queue/SafeQueue.h:21-67 | the values taken, by whomever, then those queued are the values pushed, in order |
| SafeQueue.OwnStepsDeliver | common/utility/safe_queue/SafeQueue.h:21-67 | finishing what has begun takes boundedly many steps and ends with nobody asleep beside a value |
| SafeQueue.StepValid | common/utility/safe_queue/SafeQueue.h:21-67 | every step keeps the invariant, spurious wakeups included |
| SafeQueue.SafeQueue.Push | common/utility/safe_queue/SafeQueue.h:21-37 | the push and its notification are the machine's two steps |
| SafeQueue.SafeQueue.TryPop | common/utility/safe_queue/SafeQueue.h:39-51 | the front value, or none exactly if the queue is empty |
| SafeQueue.SafeQueue.TakeOrSleep | common/utility/safe_queue/SafeQueue.h:53-67 | the front value, or the caller sleeps exactly if the queue is empty |
| MipChain.GenerateMipMaps | common/renderer/Renderer.cpp:959-1052 | every barrier leaves the layout the level has, every blit is legal, and all levels end readable and written all over |
| MipChain.CreateProfilePictureImage | common/renderer/Renderer.cpp:1094-1140 | the same from an image without layout |
| MipChain.ChainEndsAtOne | common/profile_picture/ProfilePicture.cpp:15-15 | a level is one by one exactly from the last level on |
| MipChain.ExtentHalf | common/renderer/Renderer.cpp:1034-1038 | the loop's halving gives the extent of the next level |
| MipChain.ShiftDivides | common/renderer/Renderer.cpp:1034-1038 | a level's extent is the size divided by a power of two, rounded down |
| MipChain.Log2Bounds | common/profile_picture/ProfilePicture.cpp:15-15 | the level count uses the rounded down binary logarithm |
| Frames.FramesAreSafe | common/renderer/Renderer.cpp:1266-1357 | in every run nothing the GPU uses is reset, recorded or submitted again, at most N submissions are unfinished, frame k uses slot k mod N |
| Frames.WaitReturns | common/renderer/Renderer.cpp:817-823 | the wait returns at once, or exactly one unfinished submission owns the fence and its completion lets the wait return |
| Frames.StepValid | common/renderer/Renderer.cpp:1296-1357 | every step of the loop and of the GPU keeps the invariant |
| Frames.Renderer.constructor | common/renderer/Renderer.cpp:872-889 | the fences start signaled |
| Frames.Renderer.WaitForFences | common/renderer/Renderer.cpp:817-823 | the wait step, after whatever the GPU has to finish first; it always returns |
| Frames.Renderer.RecordUIData | common/renderer/Renderer.cpp:1266-1294 | re-recording the slot's secondary buffer, while the GPU goes on with other slots, touches nothing in use |
| Frames.Renderer.RenderFrame | common/renderer/Renderer.cpp:1296-1357 | the remaining steps of a frame in their order, with the GPU finishing any submissions between them; the slot advances exactly after a presentation, and the resize mark is set exactly if the swap chain needs it |

## Left out

- The user interface, sounds, file dialogs, image loading and resizing, and the texts for the database panel. Of the roster only what the server's methods push to its two queues is modelled.
- Sockets, asio and SQLite themselves: a closure queue, completions in any order and tables with the queries' meaning stand for them. `startHost` and `Database::start` are not modelled, nor are 64-bit row ids read as 32-bit.
- Shutting the server down: the shutdown request is handled in `Database` and `DatabaseRuns`, but no step of the interleaved system sends it.
- The clock: a message's timestamp is a parameter of the step that makes it. One call of `Update` uses one time for all its messages.
- The general JSON library: only the fixed object of four fields and the picture object, compact and with the keys in the library's sorted order; other layouts a foreign client might send count as unparsable.
- In the interleaved system a message arrives as one step and already parsed; malformed lines, and lines cut by a drained chunk, are treated in `Session.HandleMessage` and the lemmas beside it only. The inbox of the server holds parsed messages where the original keeps the raw line and parses it again; `ServerLines` shows that this comes to the same.
- A read that fails with another error than end of file or reset merely stops the reading; in the model such a connection sends nothing more.
- Updates of the pending map and the erasure in `onClientDisconnected` take no lock in the original; they are atomic steps here. So is reading a session's user on the update thread.
- The formatting of the digest by the string stream is modelled as eight lower-case digits per word.
- Windows of more than three changed bytes in a password: four neighbouring bytes feed all four words of the state, and no statement is made about them.
- The Vulkan device, swap chain and memory; of the render loop only fences, acquisition semaphores and command buffers are kept. The swap chain's reconstruction after a resize waits for the device and touches none of them.
- Server.Server.HandlePendingSessions: returns false where the original goes on with a null pointer.
- Server.Server.KickUser: returns false where the original dereferences the end iterator.
- SafeQueue.SafeQueue.TakeOrSleep: is `waitAndPop` between acquiring the lock and returning or blocking; the blocked time in between is in the state machine, not in the method.
- SafeQueue.SafeQueue.Push: takes its two steps without another thread in between; the state machine lets any thread act between them.
- Server.Server.Update: runs without the other threads, which act between any two of its steps in the interleaved system only.
- Frames.Renderer.RecordUIData: beginning, drawing into and ending the secondary buffer are one step; the buffer's content is not modelled.
