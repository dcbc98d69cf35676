# Proofs about LocalSend's transfer protocol, signaling server and codecs

This project models the logic of LocalSend's Rust core, signaling server and Flutter bridge in
Dafny 4.11 and proves what it promises. `dafny verify dfyconfig.toml` checks everything.

## What is modelled

* **The peer-to-peer session** (`core/src/webrtc/webrtc.rs`). `send_offer` and `accept_offer` are two
  sequential processes from the first nonce to the last wait, each given by what it does on its next
  message or on a closed channel (`Peers`), joined by two FIFO queues (`Duplex`). A run is any
  interleaving of their sends and reads in which every send to a process that is gone may go through
  or fail. As long as no send fails, moves of the two sides commute, so that every run ends in one
  state, a function of keys, PINs, guesses, choices and files alone (`Handshake`, with the file phase
  in `Streaming`). `Turns`, `Refusals` and `Endings` say which sends can fail at all and what that
  changes: every ending of every run. `Gates` says, for either process and any messages at all, what
  makes it go on. `PinChallenge` has the two PIN loops as methods and their lockstep, `FileStream` the
  header, chunk and delimiter loops, `FileTransfer` what the receive loop makes of any message
  sequence, and `Session` what all this comes to for the users.
* **The byte path** (`Chunks`, `Packets`): the 16 KiB chunker, the delimited string frames and the
  1 MiB buffer in front of the application.
* **The signaling server** (`SignalingServer`): one task per socket over the two locked maps. A lock
  section is one step, and the sends it prepared are later steps, so that any other task can come in
  between, also between the counting of a request and its carrying out. `Locks` shows that the two
  mutexes cannot deadlock. `RoomViews`, `RoomConvergence` and `ServerRuns` prove invariants of every
  run: room membership, quotas, relayed SDP messages and what each client hears of its room.
  `DeviceIndex` is what the app makes of that, and `Listener` the client's dispatcher.
* **Codecs and tokens**: the bridge's SSE printer and parser over a description of types
  (`SseCodec`, `SseCursor`, `SseTypes`), UTF-8 (`Utf8`), the dotted signed token over base64url
  (`Tokens`, `Base64`), the room key (`IpGroup`) and the paired nonce caches (`NonceCaches`).

Hashing, signatures and JSON are functions known only by laws: a signature verifies under its own
key, JSON decodes what it encoded, an encoding has at least two bytes, and a text of at most one
byte is no message. Randomness (nonces, file tokens, ids), clocks, hash-map iteration orders and the
users' answers are parameters.

## What the proofs found

* With an empty PIN configured at the receiving side, the receiver accepts before it has read
  anything, while the sender, told that a PIN is required, still sends a guess; the receiver takes it
  for the end of the file list. `Endings.WrongKindExactly` proves that a message of the wrong kind
  is met in some run exactly in this case. An empty PIN at the sending side is no PIN at all.
* The delimiter is recognised only behind an open file. `FileTransfer.EndsCleanlyExactly` proves
  that a stream ends without a parse error exactly when at least one file was sent and the last one
  is in the receiver's list.
* The app keeps devices under their fingerprint, the token a client chose, and compares peer ids only
  under one fingerprint. A peer that updates to another token is therefore held twice
  (`DeviceIndex.TokenChangeDuplicates`, in a run: `ServerRuns.HeldTwice`). Hello is sent outside the
  registration lock, so an update can also overtake it and then be overwritten by it
  (`ServerRuns.StaleView`). `DeviceIndex.DevicesConverge` proves that nothing else goes wrong: the app
  holds exactly the room's device of a peer if and only if neither happened.
* The sender's last wait is for any one message, and then it closes the connection
  (`core/src/webrtc/webrtc.rs:558` and 617-623). It hears the status of the first file and no other,
  and a receiver that still has a status to send can fail on it before it looks at the header behind
  the file. `Session.FilesLost` proves that any number of files from two on can be the last to
  arrive, `Session.AllArriveExactly` that all files arrive in every run if and only if there are at
  most two, and `Session.CleanInEveryRunExactly` that the receiver ends without an error in every run
  if and only if there is exactly one, sent last.
* Apart from those statuses the two sides speak in strict turns, so that no send meets a closed
  channel. The exception is a receiver that asks for a PIN and then approves an empty one, or refuses
  because no try is allowed, without waiting for the guess: `Endings.SendFailsExactly`.
* Tokens with fewer than four dots make verification panic (`Tokens.PanicsExactlyWhenShort`). The
  timestamp window relies on wrap-around: a stamp from the future is rejected by the wrapping build,
  except during the first hour of the epoch, and panics in a build with overflow checks.
* A refused first connection leaves an entry for an empty room in the server's map
  (`ServerRuns.EmptyEntryLeft`); `ServerRuns.EmptyEntriesExact` proves for all runs when such an entry
  is there. Relayed SDP messages carry the origin's connect-time information even after an update
  (`ServerRuns.RelayExact`).
* A callback registered after its answer arrived never fires (`Listener.CallbackExact`);
  `send_offer` registers it only after the offer is sent.

## Model

| member | source | states |
|---|---|---|
| Session.SessionDelivers | core/src/webrtc/webrtc.rs:882-993 | in every complete run of trusted peers with guessed PINs and a selection, the sender hears the first status and no other; the receiver either gets every picked and offered file, in order, each as the 1 MiB split of its content, and answers each, or is cut off with the first two or more of them whole and the last of those not answered; with only offered picks there is no file error |
| Session.FilesLost | core/src/webrtc/webrtc.rs:902-908 | for every number of files from two up to all, some run delivers exactly these and loses the files behind, the status being refused because the sender closed on the first |
| Session.ThirdLost | core/src/webrtc/webrtc.rs:556-558 | with three files some complete run delivers the first two and not the third |
| Session.AllArriveExactly | core/src/webrtc/webrtc.rs:882-993 | all picked and offered files arrive in every run if and only if there are at most two |
| Session.CleanInEveryRunExactly | core/src/webrtc/webrtc.rs:890-923 | the receiver ends at the delimiter with all its statuses sent in every run if and only if exactly one picked file was offered and it is the last one sent |
| Session.InTermsOfPicks | core/src/webrtc/webrtc.rs:841-880 | with only offered picks these are two statements about the number of picked files |
| Endings.EveryRunEnds | core/src/webrtc/webrtc.rs:222-563 | every run of the whole session, failed sends included, is bounded in length; it can still reach the outcome computed from the configuration, or it is at an end: that outcome, a receiver cut off behind a status, or, if the receiver speaks unasked, one process failing as in the outcome and the other on a send |
| Endings.EndingsExactly | core/src/webrtc/webrtc.rs:882-993 | if the checks are passed, the endings that occur are exactly the computed outcome and one for every status behind the first, with the file closed, the statuses before it sent and the messages behind unread |
| Endings.StopsAreFinal | core/src/webrtc/webrtc.rs:666-880 | wherever a process has stopped in the middle of a run, unless on a failed send, that is where it stands in the outcome |
| Endings.PeersAgree | core/src/webrtc/webrtc.rs:297-486 | in every complete run, unless a send failed before the offer, both ends build the same nonce; they decline together, or go through the stream under the same tokens and list, the receiver perhaps cut off, exactly when each expected key is bound by the peer's own token and the PINs are guessed in time, otherwise both fail; each passed challenge read exactly the guesses up to the first right one |
| Endings.WrongKindExactly | core/src/webrtc/webrtc.rs:750-795 | some run has a reader meeting a message of the wrong kind if and only if the receiver's PIN is empty and the trusted sender's user supplies a guess |
| Endings.CutIsLoop | core/src/webrtc/webrtc.rs:882-923 | where a run cuts the receiver off is where the receive loop stops if only so many statuses can be sent |
| Endings.OutcomeOccurs | core/src/webrtc/webrtc.rs:222-563 | every configuration has a complete run to the computed outcome, so what is said of complete runs is not empty |
| Endings.SendFailsExactly | core/src/webrtc/webrtc.rs:1189-1211 | some run has a process failing on a send that is not a file's status if and only if the receiver speaks unasked: it trusts the sender and has an empty PIN, or one that may not be tried |
| Turns.OnlyStatusesFail | core/src/webrtc/webrtc.rs:902-908 | otherwise, in every session, failed or not, the only send that can meet a gone process is that of a status in the file phase |
| Turns.SuccessRefused | core/src/webrtc/webrtc.rs:902-908 | in a session whose checks are passed, that is a status behind the first, and the report left is the one of its place in the stream |
| Turns.TalkRun | core/src/webrtc/webrtc.rs:666-880 | unless the receiver speaks unasked, every run stays in these states: one side has one thing to say, of the kind the waiting other one expects next; or one side is gone and nothing is under way; or the offer, its answer or the file stream is being exchanged |
| Gates.SenderGate | core/src/webrtc/webrtc.rs:222-376 | whatever its peer sends, the sender says its file list exactly behind a valid nonce, a token that binds the expected key and the two nonces, approval of its guesses if a PIN was required, and guesses that pass its own PIN |
| Gates.ReceiverGate | core/src/webrtc/webrtc.rs:666-748 | whatever its peer sends, the receiver comes to wait for the file list exactly behind a valid nonce, a token that binds the expected key and the two nonces, and guesses that pass its PIN |
| Gates.SenderTrustsExactly | core/src/webrtc/webrtc.rs:262-297 | in any state and for any message in place of a token response, the sender goes on if and only if the message carries a token that binds what it expects, and otherwise stops: mistrusting, on a token without five parts, told that its own token is invalid, or on something else |
| Gates.ReceiverTrustsExactly | core/src/webrtc/webrtc.rs:696-719 | the same of the receiver, which says so to the sender when it mistrusts a token |
| Gates.SenderTakesNonce | core/src/webrtc/webrtc.rs:236-262 | any first message with a nonce of 16 to 128 bytes, and no other, makes the sender append it to its own and say its token over both |
| Gates.ReceiverTakesNonce | core/src/webrtc/webrtc.rs:675-694 | so does the receiver, in the order sender, receiver, answering with its own nonce |
| Gates.SenderTakesGuess | core/src/webrtc/webrtc.rs:1189-1223 | for any message, a right guess gets the file list, a wrong one a notice while tries are left and a refusal then, anything else ends the loop |
| Gates.ReceiverTakesGuess | core/src/webrtc/webrtc.rs:1189-1223 | the same of the receiver, which says its approval |
| Gates.SenderTakesFrame | core/src/webrtc/webrtc.rs:398-480 | whatever the frame or the close behind it, only a list of tokens makes the sender send its files, namely under these tokens; every other answer and every unparsed one ends it in its own way |
| Gates.ReceiverTakesFrame | core/src/webrtc/webrtc.rs:752-880 | whatever the frame, only a file list makes the receiver ask its user, whose choice is answered, and only a request makes it say its next guess |
| Gates.TokensOfChoice | core/src/webrtc/webrtc.rs:857-863 | the answer holds one fresh token for every picked file and for no other |
| Streaming.StreamCrosses | core/src/webrtc/webrtc.rs:882-993 | from any state the receiving process comes to stand where the receive loop stands after the messages in its queue, with its statuses on their way and the rest unread |
| Handshake.UnrefusedRunsEnd | core/src/webrtc/webrtc.rs:222-563 | as long as no send fails, every interleaving is bounded in length, can go on to the one outcome computed from the configuration, and has reached it when nothing can move |
| Handshake.TrueKeysAreTrusted | core/src/webrtc/webrtc.rs:255-287 | the tokens of peers that expect each other's true keys bind them, so both are trusted |
| Handshake.TrustExactly | core/src/webrtc/webrtc.rs:262-287 | in an honest session trust is given exactly if nothing is expected or the peer's own token binds the expected key, the agreed nonce, their digest and a signature that verifies |
| Handshake.NonceLengths | core/src/webrtc/webrtc.rs:1078-1101 | whatever arrives, a process goes on with a combined nonce of 48 to 160 bytes or stops |
| Duplex.Diamond | core/src/webrtc/webrtc.rs:1334-1349 | a successful send, a read or a close at one side and one at the other side commute |
| Duplex.Determinacy | core/src/webrtc/webrtc.rs:1334-1349 | every run without failed sends is a part of a run to the same final state, so none is longer |
| Duplex.OneRefusal | core/src/webrtc/webrtc.rs:617-623 | a run has at most one failed send, and that is its last event |
| PinChallenge.VerifyPin | core/src/webrtc/webrtc.rs:1174-1226 | the loop's verdict, u8 counter, notices sent and messages read are those of the recursive reading of its input |
| PinChallenge.VerdictExact | core/src/webrtc/webrtc.rs:1189-1225 | a non-empty PIN is accepted exactly when it is among the first `max_tries` guesses; the k-th guess accepting means k guesses read and k-1 retry notices |
| PinChallenge.VerifyExact | core/src/webrtc/webrtc.rs:1189-1225 | for every message sequence, well-formed or not: accepted if and only if the PIN is empty, or some message is the first right guess behind wrong guesses only and within the tries; failed if and only if wrong guesses are followed by no guess while tries are left; refused behind as many wrong guesses as allowed; waiting if all messages are wrong guesses; and exactly the messages up to that point are read |
| PinChallenge.VerifySays | core/src/webrtc/webrtc.rs:1196-1211 | for every message sequence the notices are one request for each wait, but for an unannounced first one, and the refusal at the end |
| PinChallenge.HandlePin | core/src/webrtc/webrtc.rs:1110-1166 | one guess sent for each reply read; outcome, guesses and reads are those of the recursive reading of the replies |
| PinChallenge.GuessExact | core/src/webrtc/webrtc.rs:1110-1166 | for every message sequence the guesser goes on over replies that ask for a retry, and is done, refused or broken by the first reply that approves, refuses or is none, or gives up when it has no guess; exactly the replies up to that one are read |
| PinChallenge.RepliesTaken | core/src/webrtc/webrtc.rs:299-322 | whatever the bytes of a reply, it is taken for an approval, a refusal or a request if and only if it decodes to that |
| PinChallenge.PinLockstep | core/src/webrtc/webrtc.rs:1110-1226 | fed with the verifier's replies in either form, `handle_pin` is done if and only if `verify_pin` accepts, refused if and only if it saw too many tries, and otherwise without a guess; both have counted the same guesses, and what follows is left unread |
| PinChallenge.RepliesSent | core/src/webrtc/webrtc.rs:1204-1211 | those replies, behind the initial notice, are exactly what the verifier sends |
| PinChallenge.NoTryAllowed | core/src/webrtc/webrtc.rs:1196-1207 | with no try allowed the verifier refuses unasked, and a guesser already asked has its first guess refused |
| PinChallenge.BothUnderstand | core/src/webrtc/webrtc.rs:768-790 | the guesser's parser, in each direction, tells retry, refusal and approval apart, the approval of a sender being the file list |
| Chunks.ProcessInChunks | core/src/webrtc/webrtc.rs:1271-1299 | the chunks depend on the bytes alone: they are the 16 KiB split of the concatenated input, however it was cut |
| Chunks.SplitIsSplit | core/src/webrtc/webrtc.rs:1268-1299 | the split loses no byte, has no empty chunk, and all chunks but the last are full |
| Chunks.SplitUnique | core/src/webrtc/webrtc.rs:1268-1299 | there is only one such split and its size is the rounded-up quotient |
| Chunks.BufferReceiver | app/rust/src/util/bytes.rs:7-33 | the loop emits what the recursive reading of its input emits |
| Chunks.RebufferBounds | app/rust/src/util/bytes.rs:10-31 | for any input no byte is lost, and every piece but the last is at least 1 MiB and shorter than 1 MiB plus the longest input |
| Chunks.RebufferedChunks | app/rust/src/util/bytes.rs:10-31 | fed with wire chunks, the buffer emits exactly the 1 MiB split of the content |
| Packets.FramesRoundTrip | core/src/webrtc/webrtc.rs:1303-1332 | any strings sent in frames come back unchanged, each read consuming exactly its own frame |
| Packets.DataChannel.SendString | core/src/webrtc/webrtc.rs:1303-1319 | a string goes out as its frame: full chunks, the rest, the delimiter |
| Packets.DataChannel.ReceiveString | core/src/webrtc/webrtc.rs:1321-1332 | the binary messages up to the next text or the end are joined and consumed |
| Packets.ReadFrameExact | core/src/webrtc/webrtc.rs:1321-1332 | of any messages a read takes the binaries at the front, joined, and the text behind them if there is one |
| FileStream.SendFiles | core/src/webrtc/webrtc.rs:500-561 | over a channel that takes any given number of messages before it is closed: the files with a token are sent in order as header and chunks, then the delimiter, as far as the channel goes; one error for each file without a token or not sent whole; any one message is awaited only if the delimiter went out |
| FileStream.SendErrorsExactly | core/src/webrtc/webrtc.rs:500-551 | the files reported are, once and in order, those without a token, as such, and those whose last message is not among those sent |
| FileStream.CutExactly | core/src/webrtc/webrtc.rs:895-908 | for every message sequence and every number of statuses that can be sent, the loop is cut off if and only if it would send more, namely at the text that closes the file whose status is the first too many; otherwise nothing is different |
| FileStream.ReceiveFiles | core/src/webrtc/webrtc.rs:882-993 | over a channel that takes any given number of statuses, the loop publishes, answers, reports and consumes what the step-by-step reading of the messages says, and stops with an error at the first status it cannot send |
| FileTransfer.EveryMessageAccountedFor | core/src/webrtc/webrtc.rs:883-992 | for every message sequence, honest or not: published files are the accepted headers with exactly the binaries behind them, the error log is, in order, one entry for each rejected header with its reason and one for each other binary, and each closed file has one status, in order, with its id, successful if and only if the next result came and was a success, otherwise with the application's error or the default |
| FileTransfer.HeaderExactly | core/src/webrtc/webrtc.rs:923-962 | a header opens its file if and only if its id has a token, the token is that one and some entry of the list has that id; otherwise it is rejected for the first of these that fails |
| FileTransfer.PublishedFromHeader | core/src/webrtc/webrtc.rs:923-975 | each published file has a header with its token and a list entry and holds the binaries up to the next text, so nothing behind a rejected header reaches an earlier file |
| FileTransfer.StreamRoundTrip | core/src/webrtc/webrtc.rs:500-556 | of an honest stream the receive loop publishes exactly the listed files, in order with exactly their contents, answers each with a status that tells its result, and stops at the delimiter |
| FileTransfer.EndsCleanlyExactly | core/src/webrtc/webrtc.rs:890-923 | an honest stream ends without a parse error if and only if a file was sent and the last one is listed |
| FileTransfer.ApplicationGetsContent | app/rust/src/api/webrtc.rs:418-440 | however the sending application cut a file, the receiving one gets the 1 MiB split of its content |
| SignalingServer.Server.Register | server/src/controller/ws_controller.rs:108-143 | the registration section changes the shared maps exactly as the connect step, refusals included |
| SignalingServer.Server.ProtectRequestCount | server/src/controller/ws_controller.rs:358-369 | the request is counted and served, or refused at the limit with the count kept |
| SignalingServer.Server.HandleRequest | server/src/controller/ws_controller.rs:181-195 | a client message is counted and kept for its lock section, or the client is refused |
| SignalingServer.Server.HandleUpdate | server/src/controller/ws_controller.rs:275-306 | the room entry is replaced and every other member will be told |
| SignalingServer.Server.HandleSdp | server/src/controller/ws_controller.rs:313-356 | the message is prepared for its target if that is in the sender's room |
| SignalingServer.Server.Cleanup | server/src/controller/ws_controller.rs:251-272 | the entry and an empty room go, and the rest of the room will be told |
| SignalingServer.Server.SendNext | server/src/controller/ws_controller.rs:151-163 | one prepared message moves to the end of its target's queue, outside the lock |
| SignalingServer.Server.ClearRequestCounts | server/src/config/scheduler.rs:11-18 | the hourly job forgets every count and nothing else |
| DeviceIndex.DevicesConverge | app/lib/provider/network/webrtc/signaling_provider.dart:111-141 | after any run, once nothing from a peer is under way to an app, the app holds for the peer exactly the one device of the server's room, or none, if and only if no news of the peer overtook a Hello that lists another device and everything received since the peer's last Left carries its current token |
| DeviceIndex.HelloFirstDevices | app/lib/provider/network/webrtc/signaling_provider.dart:111-141 | if Hello came first, the app holds the room without itself exactly when no token changed |
| DeviceIndex.HeldIsLastPerToken | app/lib/provider/network/nearby_devices_provider.dart:146-184 | for every message sequence the index holds for a peer exactly the last device heard under each token since its last Left |
| DeviceIndex.HeldShows | app/lib/provider/network/webrtc/signaling_provider.dart:205-226 | every device held for a peer shows some message about it since its last Left: id, version, alias and model as sent, the token as fingerprint, the type as sent or desktop |
| DeviceIndex.OnePerFingerprint | app/lib/provider/network/nearby_devices_provider.dart:153-161 | under one fingerprint there is at most one device of a peer |
| DeviceIndex.TokenChangeDuplicates | app/lib/model/state/nearby_devices_state.dart:12-15 | after a Hello and an update to another token the app holds the peer twice, once as it was |
| RoomConvergence.ViewsConverge | server/src/controller/ws_controller.rs:108-163 | what the server sends suffices: an idealised client with one entry per peer id would know a peer as the server's map does, once nothing from it is under way, if and only if no news of the peer overtook the Hello that lists it differently |
| RoomConvergence.HelloFirstConverges | server/src/controller/ws_controller.rs:151-163 | if Hello came first, that idealised view equals the room without the client itself |
| RoomConvergence.RoomsExact | server/src/controller/ws_controller.rs:108-143 | each room holds exactly the sockets registered in its group and not yet cleaned up, so none is in two rooms |
| RoomConvergence.RelayInOrder | server/src/controller/ws_controller.rs:313-356 | between any two sockets the SDP messages arrive as accepted, in order, none added, and none lost while the origin is connected |
| RoomConvergence.RunInv | server/src/controller/ws_controller.rs:88-273 | the per-pair invariant over delivered, queued and pending messages holds in every run |
| ServerRuns.RelayExact | server/src/controller/ws_controller.rs:313-356 | what arrives at a target from an origin is, message by message and in order, what the origin asked for and was granted: an offer for an offer and an answer for an answer, with the session id and SDP of the request, under the information the origin connected with; all of it while the origin is connected with nothing left to send |
| ServerRuns.ConnectedAs | server/src/controller/ws_controller.rs:88-107 | that information is the one of the connection step of the origin |
| ServerRuns.AlwaysWithinLimits | server/src/controller/ws_controller.rs:114-125 | no room exceeds the connection limit and no count the request limit, in every run |
| ServerRuns.CountsExact | server/src/controller/ws_controller.rs:181-195 | each group's count is the number of its requests served since the last hourly clear |
| ServerRuns.RequestAdmission | server/src/controller/ws_controller.rs:181-195 | after any run a client message is refused if and only if the served requests of its group since the last clear have reached the limit, and the client is then told code 429 and nothing else |
| ServerRuns.ConnectionAdmission | server/src/controller/ws_controller.rs:108-125 | after any run a connection is admitted if and only if neither that limit is reached nor the room full |
| ServerRuns.EmptyEntriesExact | server/src/controller/ws_controller.rs:108-125 | after any run the map has an entry for a room nobody is in if and only if the room is empty and a connection to it was refused since a disconnect last emptied it, or since the start |
| ServerRuns.EmptyEntryLeft | server/src/controller/ws_controller.rs:108-125 | a refused first connection leaves such an entry in the empty server |
| ServerRuns.StaleView | server/src/controller/ws_controller.rs:151-163 | a run in which an update overtakes the Hello leaves a client with a view that differs from the room and nothing under way |
| ServerRuns.HeldTwice | app/lib/provider/network/nearby_devices_provider.dart:146-171 | a run without any overtaking in which an update with another token leaves an app with two devices of one peer and nothing under way |
| ServerRuns.AloneReached | server/src/controller/ws_controller.rs:108-163 | the state those runs start from is reached from the empty server |
| Locks.SectionLocks | server/src/controller/ws_controller.rs:108-143 | which sections take which lock; only the registration takes one lock inside the other, the counts inside the rooms; serving a request gives the counts back before it takes the rooms |
| Locks.NeverStuck | server/src/controller/ws_controller.rs:108-143 | however many tasks go through the lock sections in whatever order, in every reachable state all are done or one can go on, no lock has two holders, and no run is longer than the programs: the two mutexes are never waited for in a cycle |
| Listener.Connection.OnMessage | core/src/webrtc/signaling.rs:293-303 | a message is forwarded, and an answer with a registered session takes and fires its callback |
| Listener.Connection.OnAnswer | core/src/webrtc/signaling.rs:364-370 | a callback is registered for its session in place of an earlier one |
| Listener.CallbackExact | core/src/webrtc/signaling.rs:294-299 | a callback fires at most once, exactly on the first answer with its session id after its registration and before a new one |
| Listener.AllForwarded | core/src/webrtc/signaling.rs:301-301 | every message is forwarded, in order |
| SseCodec.RoundTripExactly | app/rust/src/frb_generated.rs:2844-3205 | for every type, nested vectors, options, structs and enums included, and every value of it: parsing what was printed gives the value and exactly the rest if and only if every length is below 2^31, and otherwise never that value |
| SseCodec.Parsed | app/rust/src/frb_generated.rs:1677-2105 | whatever the bytes, what is parsed has its type and lengths that fit |
| SseCodec.PrefixFree | app/rust/src/frb_generated.rs:2844-3205 | values printed one after the other are determined by the bytes |
| SseCodec.BytesAreAVector | app/rust/src/frb_generated.rs:2844-2856 | strings and ids are printed as the vector of their bytes |
| SseCodec.HashSetRoundTrip | app/rust/src/frb_generated.rs:2793-2798 | a hash set comes back under any order of its elements exactly when its size and its strings fit |
| SseCodec.IntRoundTrip | app/rust/src/frb_generated.rs:2936-2950 | in either byte order, an integer read back is the one written, cut to its width |
| SseCodec.IntBytes | app/rust/src/frb_generated.rs:2936-2950 | each kind has its width, and byte i of a printed number, from the front in little and from the back in big endian order, is the i-th digit of the number in base 256 |
| SseCodec.IntRead | app/rust/src/frb_generated.rs:1790-1795 | any bytes are read as the one number in the range of its kind that is printed as these bytes |
| SseCodec.PrintedForm | app/rust/src/frb_generated.rs:2844-2999 | flags and options begin with one byte 0 or 1, lists, texts and ids with their size and variants with their index as four bytes given digit by digit, and the parts follow in order |
| SseCodec.SizesRead | app/rust/src/frb_generated.rs:1852-1862 | a negative size is read as none, a size beyond the bytes panics, an id of another size than 16 panics, and a text is read if and only if its bytes encode it |
| SseCodec.TagsRead | app/rust/src/frb_generated.rs:2045-2091 | only the index of a variant is read, and what follows is its fields |
| SseCodec.FlagsRead | app/rust/src/frb_generated.rs:1684-1689 | any byte but zero is true |
| SseCodec.OptionsRead | app/rust/src/frb_generated.rs:1864-1908 | any byte but zero announces a value |
| SseCursor.Serializer.Put | app/rust/src/frb_generated.rs:2844-2999 | the cursor is extended by exactly the encoding of the value |
| SseCursor.Deserializer.Take | app/rust/src/frb_generated.rs:1668-1862 | the cursor moves past exactly what the parser consumes, or the read panics |
| SseCursor.Deserializer.TakeItems | app/rust/src/frb_generated.rs:1816-1862 | the pushing loop reads one item after the other, none for a negative length |
| SseCursor.Exchange | app/rust/src/frb_generated.rs:2844-2999 | what one side prints the other parses back, exactly when the lengths fit |
| SseTypes.ServerMessageRoundTrip | app/rust/src/frb_generated.rs:3157-3205 | every signaling message is parsed back field by field, exactly when its lengths fit |
| SseTypes.FilesRoundTrip | app/rust/src/frb_generated.rs:2914-2934 | a file list is parsed back field by field, exactly when its lengths fit |
| SseTypes.ClientInfoBytes | app/rust/src/frb_generated.rs:2865-2875 | the fields of a client are printed in their order |
| SseTypes.SdpBytes | app/rust/src/frb_generated.rs:3198-3205 | the fields of an SDP message are printed in their order |
| SseTypes.ServerMessageBytes | app/rust/src/frb_generated.rs:3158-3196 | each message is printed as the index of its variant and its fields |
| SseTypes.FileDtoBytes | app/rust/src/frb_generated.rs:2915-2934 | the fields of a file are printed in their order |
| Utf8.DecodedExactly | app/rust/src/frb_generated.rs:1668-1674 | exactly the encodings of strings are accepted, each as its string |
| Utf8.CodeTable | app/rust/src/frb_generated.rs:2844-2850 | the size of a sequence, the marks of its bytes and the number they hold are those of section 3 of RFC 3629 |
| Tokens.NonceRoundTrip | core/src/crypto/token.rs:118-175 | a printed token is accepted under its key for its own salt, the empty one included, and rejected for every other nonce |
| Tokens.PrintedToken | core/src/crypto/token.rs:118-136 | a printed token has five parts: the method, the digest of key and salt, the salt, the signature method and the signature of the digest |
| Tokens.AcceptedExactlyWhenBound | core/src/crypto/token.rs:177-220 | a token is accepted exactly when its five parts name the methods, the digest of key and nonce, the nonce and a signature that verifies |
| Tokens.PanicsExactlyWhenShort | core/src/crypto/token.rs:183-183 | verification panics exactly on tokens with fewer than four dots |
| Tokens.IdentifierRoundTrip | core/src/crypto/token.rs:138-141 | the signature method of a printed token is extracted, and something is extracted exactly with three dots or more |
| Tokens.IdentifierExactly | core/src/crypto/token.rs:138-141 | of any token the fourth part is extracted, if there is one |
| Tokens.TimestampWindow | core/src/crypto/token.rs:143-164 | with wrapping subtraction a stamp is accepted exactly within the last hour, or across the end of the range in the first hour of the epoch |
| Tokens.CheckedTimestampWindow | core/src/crypto/token.rs:143-164 | with checked subtraction a future stamp panics, and the window is the same otherwise |
| Tokens.TimestampExactly | core/src/crypto/token.rs:143-220 | whatever the token and key, it is accepted if and only if it binds key and salt and the salt is the eight bytes of a stamp at most an hour old, or one that the wrapping subtraction takes for that |
| Tokens.TimestampPanicsExactly | core/src/crypto/token.rs:143-183 | verification panics if and only if there are fewer than five parts or, in the checked build, the methods are right and the salt is a future stamp |
| Base64.RoundTrip | core/src/util/base64.rs:5-13 | base64url without padding decodes what it encoded |
| Base64.Canonical | core/src/util/base64.rs:5-13 | and accepts nothing but encodings |
| Base64.GroupStands | core/src/util/base64.rs:5-13 | the characters are those of the table of section 5 of RFC 4648 and hold the bits of one, two or three bytes, filled up with zeros |
| Base64.EncodedByGroups | core/src/util/base64.rs:5-13 | longer strings are encoded three bytes at a time |
| IpGroup.GroupExact | server/src/util/ip.rs:3-18 | two addresses share a room key exactly when they are the same IPv4 address or IPv6 addresses with the same first four segments |
| IpGroup.PrintedKeys | server/src/util/ip.rs:22-40 | the keys of the addresses in the unit tests, and of one with a number of two digits |
| NonceCaches.AlwaysPaired | core/src/http/server/controller/v3.rs:28-36 | in every run of handlers holding one lock across both puts, the two caches have the same keys in the same order whenever no handler is inside, and at most 200 entries, so eviction never splits a pair |
| NonceCaches.CachedIsRecent | core/src/http/server/mod.rs:48-53 | after any puts the cache holds the 200 keys put most recently, most recent first, each with the nonce put last |
| NonceCaches.CacheExact | core/src/http/server/mod.rs:48-53 | that list holds every key put, once, each before the keys put last earlier than it, and the cache is its front up to 200 entries |
| NonceCaches.Caches.NonceExchange | core/src/http/server/controller/v3.rs:10-50 | the server's half: a bad nonce changes nothing, a good one is stored with the generated one |
| NonceCaches.Caches.SaveResponse | core/src/http/client/mod.rs:98-122 | the client's half: an undecodable response changes nothing |
| NonceCaches.Meet | core/src/http/client/mod.rs:65-122 | one whole exchange leaves the two sides agreeing crosswise |
| NonceCaches.CrosswiseExactly | core/src/http/client/mod.rs:103-110 | a pair cached on both sides agrees crosswise exactly when the server's last handled exchange with the client is the client's last completed one |
| NonceCaches.InTurnAgrees | core/src/http/client/mod.rs:103-110 | exchanges that do not overlap agree, whatever other parties do meanwhile |

## Left out

- The pairing branch of the sender (core/src/webrtc/webrtc.rs:408-470): a `Pair` answer is only a stop here, since `accept_offer` never sends one.
- A user who drops the selection instead of declining (core/src/webrtc/webrtc.rs:837-839), status notifications, and channels to the application that the application closed early.
- A connection that breaks by itself, which lets both functions return without an error (the `done_rx` branches, core/src/webrtc/webrtc.rs:615 and 1040), and loss of messages sent before a close: the data channel is ordered and reliable, so what was sent is read before the close is seen.
- A process that fails drops its connection without closing it (core/src/webrtc/webrtc.rs:607); here its peer's later sends may go through or fail as after a close.
- FileStream.SendFiles: the texts of the send errors, which come from the library.
- Timeouts, keep-alive pings and `wait_buffer_empty`: timing.
- The capacity of queues, so a full server queue that delays its sender or a client that stalls on two messages before its Hello (core/src/webrtc/signaling.rs:235-268), and the exact moment at which a task is aborted: an aborted receive task is one whose remaining work, a counted request or a send, is dropped.
- The slots of the application's controllers that give out a channel once (app/rust/src/api/webrtc.rs:254-305).
- A server handler dropped between its two puts into the nonce caches.
- WebRTC, WebSocket, HTTP and TLS, zlib, certificates and key formats: libraries.
- The file size announced in a list, which the receiver never compares with the bytes received.
- A `usize` of another width than 64 bits, the bridge's opaque handles, stream sinks and dispatch tables.
- The bridge's other records (key pairs, PIN settings, statuses, file errors): each is one more description in the type language of `SseCodec`, for which the round trip is proved in general.
- Devices an app still holds from an earlier connection or another signaling server, and the merge with devices found on the network.
- `core/src/main.rs`, HTTP routing, the v2 and v3 `register` handlers and all platform code.
- RoomConvergence.ViewsConverge: speaks of pairs with nothing under way rather than of whole quiescent states, which is stronger, and of tasks whose ids are never used again, as the server draws them at random.
