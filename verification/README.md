# libzmq-ru: a verified model of its protocol core

libzmq-ru rewrites libzmq in Rust. This project models, in Dafny, the parts of it whose correctness spans
several calls or several sockets, and proves what they promise.

* **Subscription aggregation** (`Subscriptions`, `XpubHub`, `XpubRuns`, `XpubReading`, `XpubCommands`,
  `XpubAnnouncements`, `XpubAnswers`, `XpubDelivery`, `XpubSystem`, `XpubFeedSystem`, `Endpoint`,
  `Sockets`). Each XSUB keeps a reference-counted prefix index; the bound XPUB keeps a table from topic to
  peers and turns peer-level changes into notifications. Over every run of any number of peers the table
  agrees with the peers, and it is settled exactly in which modes the bytes the XPUB receives can be folded
  back into the union of subscriptions, when a raw frame is a subscription call, and for whom a manual
  answer counts; which call is announced, and what each XSUB receives of what the XPUB publishes, is proved
  over whole runs.
* **In-process messaging** (`Endpoint`, `PubSub`, `LoadBalance`, `BalancedSystem`, `Registry`,
  `RegistryRuns`, `SocketTypes`, `Pattern`, `ReqRepNet`, `ReqRepSystem`, `Sockets`). Fan-out to subscribers,
  round robin, names that are bound before or after they are connected to, and the REQ/REP lockstep with
  reply routing.
* **CURVE** (`CurveBox`, `CurveCommands`, `CurveHandshake`, `CurveSession`, `CurveAcceptance`, `CurveWire`).
  The four handshake commands, the sessions they end in, the message phase under an unreliable channel, and
  what exactly each reader accepts; the bytes of every command, and that no nonce is used twice.
* **Codecs and pipes** (`ZmtpFrame`, `Metadata`, `Utf8`, `WebSocket`, `Z85`, `OptionText`, `Pipe`).

Code that changes state in place is modelled by classes and loops (`SubscriptionState`, `InprocEndpoint`,
`ContextShared`, `XsubSocket`, `LockstepSocket`, `BalancedSocket`, `System`, `CurveClient`, `CurveServer`,
`CurveSessionObject`, `YPipe`, `ByteStream`); their methods are proved against functions on values, and the
theorems over whole runs are about those functions. Three modules go further and prove that real objects
carry out any run as the functions say: `XpubFeedSystem` (on `XpubSystem`), `BalancedSystem` and
`ReqRepSystem`. So does `PubSub`, against what each subscriber is owed. Each public call is one atomic step.

Cryptography enters as four functions: public key, shared key, seal and open. `Ideal` says that the two
sides of a key exchange agree, that a box adds 16 bytes and that what was sealed opens again; `Tight` adds
that nothing else opens under the same key and nonce; `Foreign` says of two keys that boxes under the one do
not open under the other. Random values are parameters.

Where the code departs from what its names or options suggest, the model follows the code:

* Metadata names above 255 bytes are cut, possibly inside a character (`Metadata.CutNameIsRefused`).
* The minimum i32 does not survive the name-prefix option (`OptionText.RoundTripIff`).
* The first-part option of XSUB stops all command frames, first parts included, and counts from the first
  part of a message on (`XpubCommands.FrameIsCallIff`); the frames it lets pass as data cannot be told from
  notifications (`XpubReading.NoReadingCanTell`).
* A manual XPUB answers the last peer that caused an announcement, not the one whose announcement it read
  (`XpubAnswers.AnswerReachesReaderIff`).
* A bare delimiter passed to `YPipe::write` does not close the pipe, so frames can follow it
  (`Pipe.ItemAfterRawDelimiter`).
* A round of round robin across the wrap of its 64-bit counter can miss a peer
  (`LoadBalance.RoundPicksOnceIff`).
* A late bind that meets one incompatible waiting socket fails and drops all waiting ones
  (`Registry.BindOrderIrrelevantIff`).
* XPUB, XSUB and STREAM present themselves as `PAIR` in CURVE metadata (`CurveBox.TypeNameTellsApart`).

`dafny verify dfyconfig.toml` checks the whole project.

## Model

| member | source | states |
|---|---|---|
| `XpubRuns.ApplyConsistent` | crates/libzmq-core/src/context.rs:482-607 | Every call (open, connect, disconnect, subscribe, unsubscribe, raw frame, XPUB receive, publish, policy change, manual answer) keeps the topic table equal to the attached peers' own reference counts |
| `XpubRuns.RunConsistent` | crates/libzmq-core/src/context.rs:264-291 | In every run and under every policy, the entry of a topic is exactly the set of attached peers whose own count for it is positive; no entry is empty |
| `XpubRuns.RunReadsRight` | crates/libzmq-core/src/context.rs:464-593 | With manual, verbose-unsubscribe and XSUB verbose-unsubscribe off, the last notification of each topic says whether it is in the table |
| `XpubRuns.RunReadsStrictly` | crates/libzmq-core/src/context.rs:482-576 | With verbose-subscribe off as well, each topic's notifications alternate on, off, on, ... starting with on |
| `XpubReading.NotificationsRebuildUnion` | crates/libzmq-core/src/context.rs:464-593 | While the modes are quiet and the first-part option stays off, folding the bytes the XPUB receives, last one wins, rebuilds exactly the union of the attached peers' topics; an XPUB with an empty inbox has read that union |
| `XpubReading.NotificationsAlternate` | crates/libzmq-core/src/context.rs:482-576 | With verbose-subscribe off as well, the bytes received about each topic go on, off, on, ... |
| `XpubReading.BytesSayTheSame` | crates/libzmq-core/src/context.rs:581-593 | The untagged bytes are read as the endpoint means them as long as no data frame starts with 0 or 1 |
| `XpubReading.RunPlain` | crates/libzmq-core/src/socket.rs:1176-1252 | While the first-part option stays off, no forwarded frame starts with 0 or 1, in any run |
| `XpubReading.ProxyAsksForWhatIsAccepted` | crates/libzmq-core/src/context.rs:116-129 | A proxy that subscribes upstream to what it reads as on asks for exactly the messages some attached peer's prefix index accepts |
| `XpubReading.ReadableIff` | crates/libzmq-core/src/context.rs:482-593 | The received bytes of every run of a mode can be read last-wins if and only if manual, XPUB verbose-unsubscribe, XSUB verbose-unsubscribe and the first-part option are all off |
| `XpubReading.ImitationMisreads` | crates/libzmq-core/src/socket.rs:1207-1209 | With the first-part option on, a forwarded 1-frame is read as a subscription nobody has |
| `XpubReading.NoReadingCanTell` | crates/libzmq-core/src/socket.rs:1207-1209 | Two quiet runs give the XPUB the same bytes although a topic is wanted in only one, so no reading whatever can tell them apart |
| `XpubReading.LeavingOneOfTwoMisreads` | crates/libzmq-core/src/context.rs:552-576 | In manual or verbose-unsubscribe mode, one of two subscribers leaving is received as off while the topic is still wanted |
| `XpubReading.LeavingUnjoinedMisreads` | crates/libzmq-core/src/socket.rs:1344-1358 | With XSUB verbose-unsubscribe, leaving a topic that was never joined is received as off while another peer holds it |
| `XpubRuns.WantedIsListed` | crates/libzmq-core/src/context.rs:264-291 | A topic is in the table exactly when some attached peer holds it |
| `XpubHub.PeersAfterReplay` | crates/libzmq-core/src/context.rs:595-607 | Attaching adds the peer to exactly the topics it holds |
| `XpubHub.PeersAfterRetract` | crates/libzmq-core/src/context.rs:264-291 | Detaching removes the peer from exactly the topics it holds, for every other peer nothing changes |
| `XpubHub.SubscribeReads` | crates/libzmq-core/src/context.rs:482-520 | A new or repeated subscription keeps the last-wins reading right, and strict without verbose |
| `XpubHub.UnsubscribeReads` | crates/libzmq-core/src/context.rs:534-579 | Dropping a recorded peer keeps the last-wins reading right and strict |
| `XpubCommands.FrameIsCallIff` | crates/libzmq-core/src/socket.rs:1194-1252 | In every run, a 0/1 frame of an attached XSUB acts as the call it spells if and only if the first-part option is off now and was off at the first part of its message (or neither does anything: unsubscribing from what is not held, at a full inbox) |
| `XpubCommands.ForwardedIff` | crates/libzmq-core/src/socket.rs:1194-1252 | In every run, a frame is forwarded as data exactly otherwise, and then nothing else changes; result included |
| `XpubCommands.RunRemembers` | crates/libzmq-core/src/socket.rs:1194-1205 | In every run the two bookkeeping flags say whether a message is in progress and whether the option was off at its first part |
| `XpubCommands.FramesAreCalls` | crates/libzmq-core/src/socket.rs:1176-1252 | For any set of sockets that never turn the option on, replacing all their 0/1 frames in a run by calls gives the same endpoint, notifications and subscriptions, whatever the other sockets do |
| `XpubCommands.OffTooLate` | crates/libzmq-core/src/socket.rs:1201-1212 | Turning the option off in the middle of a message that began with it on leaves the subscription frame that follows as data |
| `XpubRuns.StepAnnounces` | crates/libzmq-core/src/context.rs:482-579 | A socket's call announces changes and becomes the last peer, or forwards one data frame, or leaves inbox and last peer alone |
| `XpubAnnouncements.RunAnnounces` | crates/libzmq-core/src/context.rs:482-607 | In every run and under every policy, each call or frame of a socket appends exactly what is due to the XPUB inbox: a subscription is announced if and only if the socket is attached and nobody wanted the topic or verbose-subscribe or manual is on; a dropped last reference if and only if nobody wants it any more or verbose-unsubscribe or manual is on; connect and disconnect do this for every stored prefix in order |
| `XpubAnnouncements.SubscribeAnnouncedIff` | crates/libzmq-core/src/context.rs:482-520 | The subscribe call appends one on-announcement exactly if it is news, said with who wants the topic before |
| `XpubAnnouncements.UnsubscribeAnnouncedIff` | crates/libzmq-core/src/socket.rs:1318-1360 | The unsubscribe call appends one off-announcement exactly if it drops the last reference and that is news, or if it does not and the socket unsubscribes verbosely |
| `XpubAnnouncements.ConnectAnnouncesIff` | crates/libzmq-core/src/context.rs:595-607 | Connecting appends one announcement per stored prefix that is news, in stored order |
| `XpubAnnouncements.DisconnectAnnouncesIff` | crates/libzmq-core/src/context.rs:264-291 | Disconnecting appends one announcement per stored prefix that nobody else wants, in stored order; in the verbose modes one per prefix |
| `XpubAnnouncements.SecondSubscriberAnnounced` | crates/libzmq-core/src/context.rs:496-512 | With verbose-subscribe on, every subscription of an attached socket is announced, the second one of a topic included |
| `XpubAnnouncements.SubscriptionArrives` | crates/libzmq-core/src/context.rs:581-593 | In every run an announced subscription reaches the XPUB application as byte 1 followed by the topic in one whole message, an unannounced one not at all |
| `XpubAnnouncements.FrameArrives` | crates/libzmq-core/src/socket.rs:1061-1069 | In every run a frame that is no command reaches it as it was sent, more flag included, if and only if there is room |
| `XpubHub.SubscribeInbox` | crates/libzmq-core/src/context.rs:482-520 | The endpoint alone: a peer is announced when no other peer is recorded for the topic, or in verbose or manual mode |
| `XpubHub.UnsubscribeInbox` | crates/libzmq-core/src/context.rs:534-579 | The endpoint alone: dropping a recorded peer is announced when no other peer is recorded, or in verbose-unsubscribe or manual mode |
| `XpubAnswers.LastPeerMeaning` | crates/libzmq-core/src/context.rs:482-579 | In every run the last peer is the author of the latest announcement, or none if a last-value publish came since |
| `XpubAnswers.AnswerMeaning` | crates/libzmq-core/src/context.rs:395-437 | In every run a manual answer alters exactly the latest announcer's place in exactly the answered topic; with none, nothing |
| `XpubAnswers.AnswerReachesReaderIff` | crates/libzmq-core/src/context.rs:395-437 | After reading an announcement of p, the answer is recorded for p if and only if p made the latest announcement, read or queued, and no last-value publish came since |
| `XpubAnswers.AnswerReachesReader` | crates/libzmq-core/src/context.rs:395-437 | For the caller: it is, if no announcement by another peer is queued and no last-value publish came since the latest one |
| `XpubAnswers.AnswerMissesAsker` | crates/libzmq-core/src/context.rs:395-413 | When a second peer subscribes before the first announcement is read, the answer is recorded for the second one only |
| `XpubAnswers.AnswerMissesAskerRun` | crates/libzmq-core/src/context.rs:395-413 | The run from the start in which the announcement of 1 was just read and the answer is recorded for 2 |
| `XpubAnswers.ManualEntriesAfterDisconnect` | crates/libzmq-core/src/context.rs:278-290 | After a disconnect a manual entry still names the peer exactly when it did before and the peer had not subscribed to that topic itself |
| `Sockets.XsubSocket.Subscribe` | crates/libzmq-core/src/socket.rs:1282-1316 | The call on the mutable socket, index and endpoint is the subscribe step of the runs |
| `Sockets.XsubSocket.Unsubscribe` | crates/libzmq-core/src/socket.rs:1318-1360 | The call is the unsubscribe step of the runs, including the verbose case |
| `Sockets.XsubSocket.RunCommand` | crates/libzmq-core/src/socket.rs:1217-1248 | The command branches are the subscribe and unsubscribe steps after marking the message as a command |
| `Sockets.XsubSocket.Forward` | crates/libzmq-core/src/socket.rs:1061-1069 | A frame that is not a command is queued for the XPUB, or refused at the high-water mark with nothing changed |
| `Sockets.XsubSocket.Send` | crates/libzmq-core/src/socket.rs:1176-1252 | A send is the send step of the runs: command, data or failure, with the multipart bookkeeping and the result |
| `Sockets.XsubSocket.Connect` | crates/libzmq-core/src/context.rs:199-223 | Attaches: the endpoint replays the socket's prefixes, lists it last and puts its welcome message into the socket's inbox |
| `Sockets.XsubSocket.Disconnect` | crates/libzmq-core/src/context.rs:225-239 | Detaches: the endpoint retracts what the socket holds and drops it from its peers |
| `XpubSystem.System.Call` | crates/libzmq-core/src/socket.rs:1176-1360 | A call on one of many real sockets is the step of the run; no other socket changes |
| `XpubSystem.System.Receive` | crates/libzmq-core/src/socket.rs:1117-1130 | The XPUB receives the first queued message, which is the first item of the run in bytes |
| `XpubSystem.System.Serve` | crates/libzmq-core/src/context.rs:395-437 | Receiving, polling for events, policy changes and manual answers of the XPUB are the steps of the run |
| `XpubDelivery.EachGetsItsOwn` | crates/libzmq-core/src/socket.rs:1021-1071 | In every run, what an XSUB is owed (a welcome per connect, and each published message that reached it) is what it received followed by what is queued for it, in order |
| `XpubDelivery.FanOutReaches` | crates/libzmq-core/src/socket.rs:1061-1069 | The fan-out loop adds one copy to exactly the selected inboxes before the first full one, and succeeds exactly when none is full |
| `XpubDelivery.SelectedBySubscription` | crates/libzmq-core/src/context.rs:332-356 | Without manual mode a message is sent to exactly the attached sockets whose own index matches it, which are exactly those the topic table lists under a prefix of it |
| `XpubDelivery.SelectedByAnswer` | crates/libzmq-core/src/context.rs:358-393 | In manual mode it is sent to exactly the attached sockets holding an accepted prefix; with a last peer in last-value mode, only to that one |
| `XpubDelivery.PublishReachesSubscribers` | crates/libzmq-core/src/socket.rs:1021-1071 | In every run without manual mode and mark, a publish reaches exactly the attached sockets that subscribed to a prefix of it; it fails only if nobody is selected and nothing may be dropped |
| `XpubDelivery.RunOrderly` | crates/libzmq-core/src/context.rs:199-239 | In every run the attach order lists exactly the attached sockets, each once |
| `XpubDelivery.WorldIsRun` | crates/libzmq-core/src/context.rs:199-607 | A run with inboxes has the world of the run of its calls, so the theorems about runs apply |
| `XpubFeedSystem.FeedSystem.Deliver` | crates/libzmq-core/src/socket.rs:1061-1069 | The loop on real queues does what the fan-out specification says and stops at the first full one |
| `XpubFeedSystem.FeedSystem.Publish` | crates/libzmq-core/src/socket.rs:1021-1071 | A send on the real XPUB queues the message on exactly the specified inboxes, result included |
| `XpubFeedSystem.FeedSystem.Take` | crates/libzmq-core/src/socket.rs:1117-1130 | A receive on a real XSUB returns and removes the first queued message |
| `XpubFeedSystem.FeedSystem.ActOn` | crates/libzmq-core/src/socket.rs:1176-1360 | A call on a real XSUB changes peers, inboxes and endpoint as specified, greeting included |
| `XpubFeedSystem.Execute` | crates/libzmq-core/src/socket.rs:1021-1360 | Real sockets, indexes, inboxes and endpoint carry out any run of calls, publishes and receives exactly as specified |
| `Endpoint.InprocEndpoint.ShouldReplaySubscription` | crates/libzmq-core/src/context.rs:482-520 | New table, last peer and notification decision are those of the specification, whose announcements `XpubAnnouncements` fixes |
| `Endpoint.InprocEndpoint.ShouldReplayUnsubscription` | crates/libzmq-core/src/context.rs:534-579 | New table, last peer and notification decision are those of the specification |
| `Endpoint.InprocEndpoint.ReplayChange` | crates/libzmq-core/src/context.rs:581-593 | Queues the one-byte command followed by the topic as one message |
| `Endpoint.InprocEndpoint.ReplaySubscription` | crates/libzmq-core/src/context.rs:464-480 | Records the change and queues its notification; endpoints other than XPUB are untouched |
| `Endpoint.InprocEndpoint.ReplayUnsubscription` | crates/libzmq-core/src/context.rs:522-532 | Records the change and queues its notification; endpoints other than XPUB are untouched |
| `Endpoint.InprocEndpoint.ReplayPeer` | crates/libzmq-core/src/context.rs:595-607 | The loop over the stored prefixes is the replay of the specification |
| `Endpoint.InprocEndpoint.AddPeer` | crates/libzmq-core/src/context.rs:199-223 | Incompatible types change nothing; otherwise the peer is appended, its prefixes are replayed and it is greeted |
| `Endpoint.InprocEndpoint.RetractPeer` | crates/libzmq-core/src/context.rs:264-291 | Retracts every prefix of the peer, then its manual entries for those prefixes |
| `Endpoint.InprocEndpoint.RemovePeer` | crates/libzmq-core/src/context.rs:225-239 | Drops every entry of the id and retracts the first one's subscriptions; says whether there was one |
| `Endpoint.InprocEndpoint.ManualSubscribeLastPeer` | crates/libzmq-core/src/context.rs:395-413 | Adds the last peer to the topic; refused on other socket types |
| `Endpoint.InprocEndpoint.ManualUnsubscribeLastPeer` | crates/libzmq-core/src/context.rs:415-437 | Drops the last peer from the topic and an entry left empty |
| `Subscriptions.RunCounts` | crates/libzmq-core/src/context.rs:69-110 | After any inserts and removes, the stored count of each prefix is its reference count and exactly the positive ones are stored, once each |
| `Subscriptions.RunAnswers` | crates/libzmq-core/src/context.rs:70-110 | Insert answers true exactly on 0 to 1, remove exactly on 1 to 0 |
| `Subscriptions.RunMatches` | crates/libzmq-core/src/context.rs:116-129 | Data matches exactly when some prefix with positive count is a prefix of it |
| `Subscriptions.RunOrder` | crates/libzmq-core/src/context.rs:70-114 | After any run the prefixes are stored in the order in which each last went from no reference to one |
| `Subscriptions.SubscriptionState.Add` | crates/libzmq-core/src/context.rs:70-85 | Updates map, order and all three accelerators to agree with one more reference |
| `Subscriptions.SubscriptionState.Drop` | crates/libzmq-core/src/context.rs:87-110 | Updates map, order and accelerators, rebuilding the latter when the last reference goes |
| `Subscriptions.SubscriptionState.Rebuild` | crates/libzmq-core/src/context.rs:96-109 | The rebuild loop makes both accelerators exact for the stored prefixes |
| `Subscriptions.SubscriptionState.MatchesPrefixOf` | crates/libzmq-core/src/context.rs:116-129 | The accelerated test equals the naive search over all stored prefixes |
| `Subscriptions.SubscriptionState.Count` | crates/libzmq-core/src/context.rs:131-133 | The length of the duplicate-free list of stored prefixes, which after any run is the number of prefixes with positive reference count |
| `Endpoint.InprocEndpoint.MatchingPeers` | crates/libzmq-core/src/context.rs:332-356 | The inboxes of the selected peers in attach order, the last peer consumed; without manual mode a peer is listed by stored prefix, by group or always, according to its type |
| `Endpoint.InprocEndpoint.ManualMatchingPeerIds` | crates/libzmq-core/src/context.rs:358-393 | The loop over the manual topics computes the selection, limited to the last peer in last-value mode |
| `Endpoint.InprocEndpoint.SendClones` | crates/libzmq-core/src/context.rs:451-461 | The clone loop appends one copy per selected peer entry to precisely the selected inboxes and counts them |
| `Endpoint.InprocEndpoint.SendOwnedToMatchingPeers` | crates/libzmq-core/src/context.rs:439-462 | One copy per accepting entry and the count; a SUB or XSUB connected once gets the message if and only if some beginning of the data is a prefix it stores, a DISH if and only if the group is one it stores, any other type always |
| `PubSub.Execute` | crates/libzmq-core/src/socket.rs:1132-1142 | A real PUB endpoint with real SUB indexes and inboxes carries out any run of connects, disconnects, subscribes, unsubscribes, publishes and receives: what each socket has received followed by what is queued for it is exactly the messages published while it was attached and some beginning of the data had more subscribes than unsubscribes |
| `PubSub.PubSystem.Send` | crates/libzmq-core/src/context.rs:439-462 | A publish adds the message to exactly the inboxes of the attached, subscribed sockets |
| `PubSub.PubSystem.Receive` | crates/libzmq-core/src/socket.rs:1117-1130 | A receive on a real SUB returns and removes the next message it is owed |
| `PubSub.SubscribedIsStored` | crates/libzmq-core/src/context.rs:116-129 | The index built by the calls takes exactly the data of which some beginning is subscribed |
| `Endpoint.AcceptsMeaning` | crates/libzmq-core/src/context.rs:654-667 | A SUB or XSUB takes what starts with a stored prefix, a DISH what is for a stored group, every other type everything |
| `Endpoint.OthersConcat` | crates/libzmq-core/src/context.rs:225-239 | Dropping a peer drops all its entries and keeps the others in order |
| `Endpoint.TimesIsMultiplicity` | crates/libzmq-core/src/context.rs:332-356 | The fast path's copies per inbox are the occurrences of that inbox in the slow path's list |
| `Endpoint.AcceptingMembers` | crates/libzmq-core/src/context.rs:654-667 | A peer is selected exactly when it is attached and accepts the message |
| `Endpoint.ManualSelectionExact` | crates/libzmq-core/src/context.rs:358-393 | In manual mode exactly the attached peers holding an accepted prefix are selected; with a last peer in last-value mode, only that one |
| `Endpoint.AcceptsMessage` | crates/libzmq-core/src/context.rs:654-667 | The accelerated test accepts exactly what starts with a stored prefix (SUB, XSUB), what is for a stored group (DISH), or everything (other types) |
| `Endpoint.InprocEndpoint.NextPeer` | crates/libzmq-core/src/context.rs:315-322 | Picks the peer at the counter modulo the number of peers and advances the wrapping counter |
| `Endpoint.InprocEndpoint.PeerById` | crates/libzmq-core/src/context.rs:324-330 | The inbox of the first attached peer with the id |
| `LoadBalance.RoundPicksOnceIff` | crates/libzmq-core/src/context.rs:315-322 | n consecutive calls on n fixed peers pick each exactly once if and only if the 64-bit counter does not wrap among them or 2^64 is a multiple of n |
| `LoadBalance.RoundRobinFair` | crates/libzmq-core/src/context.rs:315-322 | Over k consecutive calls on n fixed peers, counter not wrapping, each peer is picked k/n times rounded down or up |
| `BalancedSystem.TakeTurns` | crates/libzmq-core/src/context.rs:315-322 | k calls of the real endpoint return each peer's inbox exactly that often |
| `LoadBalance.SendQueuesOne` | crates/libzmq-core/src/socket.rs:1021-1071 | A successful send queues one frame on one attached peer, a failed one queues nothing |
| `LoadBalance.SendFailsIff` | crates/libzmq-core/src/socket.rs:1132-1174 | A send fails exactly without peers, or on the slow path at the high-water mark of the peer whose turn it is |
| `LoadBalance.SendsShareEvenly` | crates/libzmq-core/src/context.rs:315-322 | With each of n peers connected once, any k frames are shared out evenly: each peer gets k / n of them, rounded down or up, unless the counter wraps |
| `LoadBalance.FirstPeerGetsAll` | crates/libzmq-core/src/context.rs:293-296 | PAIR and CHANNEL send every frame to the first peer, in order, and none elsewhere |
| `LoadBalance.RunConserves` | crates/libzmq-core/src/socket.rs:1132-1174 | In every run the frames sent to a peer are those it received followed by those queued for it, in order |
| `BalancedSystem.System.Send` | crates/libzmq-core/src/socket.rs:1021-1174 | A send on a real bound sender is the send step, result included |
| `BalancedSystem.Execute` | crates/libzmq-core/src/socket.rs:1021-1174 | A real sender, endpoint and queues carry out any run of attach, detach, send and receive exactly as specified, so nothing is lost or reordered |
| `Sockets.BalancedSocket.Choose` | crates/libzmq-core/src/socket.rs:1155-1164 | Round robin for PUSH and SCATTER, first peer for PAIR and CHANNEL |
| `Sockets.BalancedSocket.Send` | crates/libzmq-core/src/socket.rs:1132-1174 | One frame goes to the chosen inbox or none at all; only the slow path refuses at the high-water mark; no other inbox changes |
| `Registry.ContextShared.BindInproc` | crates/libzmq-core/src/context.rs:901-931 | Takes a free name and admits the waiting sockets in order; on failure the name stays unbound |
| `Registry.ContextShared.ConnectInproc` | crates/libzmq-core/src/context.rs:934-966 | Attaches to a bound name or waits at the end of its queue |
| `Registry.ContextShared.UnbindInproc` | crates/libzmq-core/src/context.rs:968-974 | Frees the name; fails if it is not bound |
| `Registry.ContextShared.DisconnectInproc` | crates/libzmq-core/src/context.rs:976-1006 | Leaves the endpoint and the waiting queue; fails if the socket was in neither |
| `Registry.RunSeparated` | crates/libzmq-core/src/context.rs:901-1006 | In every run no name is both bound and pending, and no waiting queue is empty |
| `Registry.BindAfterMeaning` | crates/libzmq-core/src/context.rs:901-966 | A late bind that admits all waiting sockets gives the peers, table, notifications and welcomes of one in-order admission |
| `Registry.FailedBindStaysUnbound` | crates/libzmq-core/src/context.rs:913-931 | If a waiting socket does not fit, the late bind leaves the name unbound and forgets all waiting sockets; those before it were greeted and their notifications stay in the binder's inbox |
| `Registry.BindOrderIrrelevantIff` | crates/libzmq-core/src/context.rs:901-966 | Binding after the first k connects equals binding first if and only if those k sockets are compatible with the binder |
| `RegistryRuns.RunRecorded` | crates/libzmq-core/src/context.rs:901-1006 | In every run of binds, connects, unbinds and disconnects, early or late, the table of each bound XPUB lists for each topic exactly the sockets that are its peers and store the topic |
| `RegistryRuns.AdmitMeaning` | crates/libzmq-core/src/context.rs:199-223 | One admission: last in the peers, the announcements that are news, the peer to answer if there were any, one greeting, and nothing else |
| `RegistryRuns.BindMeaning` | crates/libzmq-core/src/context.rs:901-932 | In any run, binding a free name makes the waiting sockets up to the first misfit the peers in order, appends to the binding socket's own items one announcement per newly stored prefix in order, and greets each admitted socket once per connect; it fails exactly if there is a misfit |
| `RegistryRuns.ConnectMeaning` | crates/libzmq-core/src/context.rs:934-966 | In any run, connecting to a bound name makes a fitting socket the last peer, announces what is new and greets it once; a misfit changes nothing |
| `RegistryRuns.DisconnectMeaning` | crates/libzmq-core/src/context.rs:976-1006 | In any run, disconnecting drops all entries of the socket and announces each of its prefixes that no other peer stores, in order (in the verbose modes each prefix) |
| `RegistryRuns.WaitingMeaning` | crates/libzmq-core/src/context.rs:934-1006 | Connects to an unbound name queue up in order, and disconnecting leaves the queue; both results |
| `RegistryRuns.UnbindMeaning` | crates/libzmq-core/src/context.rs:968-974 | Unbinding frees the name and leaves everything else alone |
| `SocketTypes.CompatibleIff` | crates/libzmq-core/src/context.rs:628-652 | Each type fits exactly its partner, and the relation is symmetric |
| `Pattern.GuardedUpdateSucceeds` | crates/libzmq-core/src/socket.rs:3590-3666 | A post-step update succeeds exactly when its guard passes |
| `Pattern.LockstepLanguage` | crates/libzmq-core/src/socket.rs:3590-3666 | The accepted runs of a strict REQ are exactly the beginnings of (send-more* send-final recv-more* recv-final)*, those of REP the mirror image |
| `Pattern.AcceptedIsRounds` | crates/libzmq-core/src/socket.rs:3610-3666 | Every accepted run splits into whole rounds and one unfinished round, and the state is determined by the latter |
| `Pattern.UnfinishedAccepted` | crates/libzmq-core/src/socket.rs:3590-3666 | Every list of rounds followed by an unfinished one is accepted |
| `Pattern.RelaxedLanguage` | crates/libzmq-core/src/socket.rs:3590-3687 | A relaxed REQ accepts every send, and a receive exactly if the last whole message was a request |
| `Pattern.RefusedIff` | crates/libzmq-core/src/socket.rs:3590-3649 | Exactly which sends and receives are refused, with the error |
| `Pattern.UnlockedLanguage` | crates/libzmq-core/src/socket.rs:3590-3687 | Every other type may send and receive in any order |
| `ReqRepNet.ApplySound` | crates/libzmq-core/src/socket.rs:973-1130 | Every call keeps the one-in-flight invariant and the exchange logs; a failed call changes nothing |
| `ReqRepNet.RunSound` | crates/libzmq-core/src/socket.rs:1967-2006 | In every run, requests queued, held or answered for a REQ number one exactly while it waits and zero otherwise |
| `ReqRepNet.ReplyGoesToAsker` | crates/libzmq-core/src/socket.rs:3516-3542 | A REP ready to send reaches the requester it received from, whose inbox is empty |
| `ReqRepNet.SomeoneCanMove` | crates/libzmq-core/src/socket.rs:973-1130 | While anyone waits, a receive or reply step succeeds |
| `ReqRepNet.RepliesAnswerRequests` | crates/libzmq-core/src/socket.rs:1271-1280 | A requester's completed exchanges are in order the REP's exchanges with it; at most the last is still on its way |
| `ReqRepNet.RunFirstComeFirstServed` | crates/libzmq-core/src/socket.rs:1021-1130 | In every run the accepted requests are, in order, those the REP has answered, the one it holds and those in its queue |
| `ReqRepNet.AskSucceedsIff` | crates/libzmq-core/src/socket.rs:1021-1071 | Exactly when a request and each receive is accepted, and the error otherwise |
| `ReqRepNet.DrainServesEveryone` | crates/libzmq-core/src/socket.rs:973-1130 | A REP that keeps receiving and answering, each time with any reply, ends with its reply queued at every waiting requester |
| `Sockets.LockstepSocket.AfterPatternSend` | crates/libzmq-core/src/socket.rs:3610-3634 | The update on the stored state is that of the pattern |
| `Sockets.LockstepSocket.AfterPatternRecv` | crates/libzmq-core/src/socket.rs:3651-3666 | The update on the stored state is that of the pattern |
| `Sockets.LockstepSocket.Send` | crates/libzmq-core/src/socket.rs:973-1071 | Succeeds exactly if the guard passes, a target exists and its queue has room; then appends the stamped message; otherwise changes nothing |
| `Sockets.LockstepSocket.Recv` | crates/libzmq-core/src/socket.rs:1074-1130 | Takes the first message, remembers its routing id and updates the state; a failure changes nothing |
| `Sockets.LockstepSocket.ReplyOutbox` | crates/libzmq-core/src/socket.rs:1981-2003 | Where a REP's reply goes: to the first attached peer of its own or the last received routing id, or to nobody; without an id to the earliest attached peer |
| `ReqRepSystem.System.Connect` | crates/libzmq-core/src/context.rs:934-966 | A new REQ joins the endpoint: a join step of the network, with a fresh socket and inbox |
| `ReqRepSystem.System.Ask` | crates/libzmq-core/src/socket.rs:973-1071 | A send on a real REQ is the ask step of the network, result included |
| `ReqRepSystem.System.TakeRequest` | crates/libzmq-core/src/socket.rs:1074-1130 | A receive on the real REP is the take-request step and returns that request |
| `ReqRepSystem.System.Reply` | crates/libzmq-core/src/socket.rs:1967-2006 | A send on the real REP reaches the inbox the network names, or fails as it does |
| `ReqRepSystem.System.TakeReply` | crates/libzmq-core/src/socket.rs:1074-1130 | A receive on a real REQ is the take-reply step and returns that reply |
| `ReqRepSystem.Execute` | crates/libzmq-core/src/socket.rs:973-1130 | Real sockets, queues and endpoint carry out any run exactly as the network does, so the run theorems hold of them |
| `CurveBox.CommandRoundTrip` | crates/libzmq-core/src/socket.rs:5905-5937 | A written command body is read back as its tail |
| `CurveBox.OptionKeyForms` | crates/libzmq-core/src/socket.rs:5175-5187 | A key option names the same key raw and in Z85 |
| `CurveBox.MetadataRoundTrip` | crates/libzmq-core/src/socket.rs:5344-5379 | The socket type and identity properties written are those a peer reads |
| `CurveBox.TypeNameTellsApart` | crates/libzmq-core/src/socket.rs:5357-5379 | Two socket types have the same name if and only if they are equal or both among PAIR, XPUB, XSUB and STREAM |
| `CurveBox.IdealExists` | crates/libzmq-core/src/socket.rs:5200-5232 | The laws assumed of the boxes can all hold together |
| `CurveCommands.HelloIsRead` | crates/libzmq-core/src/socket.rs:4781-4796 | The server reads the client's transient key and counter from its HELLO |
| `CurveCommands.WelcomeIsRead` | crates/libzmq-core/src/socket.rs:4798-5003 | The client reads the server's transient key and cookie from its WELCOME |
| `CurveCommands.CookieIsAccepted` | crates/libzmq-core/src/socket.rs:5014-5022 | The server accepts the cookie it made |
| `CurveCommands.InitiateIsRead` | crates/libzmq-core/src/socket.rs:4822-4861 | The server reads the client's long-term key and metadata from its INITIATE and remembers the counter |
| `CurveCommands.ReadyIsRead` | crates/libzmq-core/src/socket.rs:5061-5078 | The client reads the server's metadata from its READY and remembers the counter |
| `CurveAcceptance.HelloAcceptedIff` | crates/libzmq-core/src/socket.rs:4931-4966 | A HELLO is accepted with a key and counter exactly when it is version 1.0 with a signature sealed by that key for this server; padding is free |
| `CurveAcceptance.WelcomeAcceptedIff` | crates/libzmq-core/src/socket.rs:4798-4820 | A WELCOME is accepted exactly when its box is sealed between the configured server key and the client's transient key |
| `CurveAcceptance.CookieAcceptedIff` | crates/libzmq-core/src/socket.rs:5014-5022 | The cookie check accepts exactly the cookies the server made for this client |
| `CurveAcceptance.InitiateAcceptedIff` | crates/libzmq-core/src/socket.rs:5005-5059 | An INITIATE is accepted with a client key and metadata exactly when counter, cookie, box, vouch and metadata are byte for byte what that client writes |
| `CurveAcceptance.InitiateFromClient` | crates/libzmq-core/src/socket.rs:4822-4861 | For matching keys, what the server computes as an INITIATE is what the client writes |
| `CurveAcceptance.ReadyAcceptedIff` | crates/libzmq-core/src/socket.rs:4863-4882 | A READY is accepted exactly when the counter grew and it is what the server writes for that metadata |
| `CurveAcceptance.MessageAcceptedIff` | crates/libzmq-core/src/socket.rs:5140-5158 | A message is accepted exactly when the counter grew and the body is what the other end writes for it |
| `CurveHandshake.CurveClient.HelloBody` | crates/libzmq-core/src/socket.rs:4781-4796 | The steps (counter, signature box, length check, five fields) give the HELLO that the server is proved to read, and advance the counter |
| `CurveHandshake.CurveClient.ProcessWelcome` | crates/libzmq-core/src/socket.rs:4798-4820 | The steps (tail, length, box, two parts) store key and cookie of exactly the WELCOMEs proved acceptable; a refused one changes nothing |
| `CurveHandshake.CurveClient.InitiateBody` | crates/libzmq-core/src/socket.rs:4822-4861 | Needs an accepted WELCOME; the steps write the INITIATE proved readable and advance the counter; a refusal leaves the counter |
| `CurveHandshake.CurveClient.ProcessReady` | crates/libzmq-core/src/socket.rs:4863-4882 | Checks and remembers the counter, even if no WELCOME was processed, then opens the metadata |
| `CurveHandshake.CurveServer.ParseInitiate` | crates/libzmq-core/src/socket.rs:5005-5059 | The steps (cookie halves, counter, box, vouch halves, metadata) accept exactly the INITIATEs proved acceptable and remember the counter before the box |
| `CurveHandshake.KeysMatch` | crates/libzmq-core/src/socket.rs:4758-4779 | Options that name matching keys give matching key material on both sides |
| `CurveHandshake.FirstRound` | crates/libzmq-core/src/socket.rs:4578-4607 | HELLO and WELCOME leave both sides with each other's transient keys, the cookie and counters 2, 0 and 1 |
| `CurveHandshake.SecondRound` | crates/libzmq-core/src/socket.rs:4583-4612 | INITIATE tells the server exactly the client's key and metadata |
| `CurveHandshake.ThirdRound` | crates/libzmq-core/src/socket.rs:4588-4620 | READY tells the client the server's metadata and both sessions share one key with crossed prefixes |
| `CurveHandshake.Handshake` | crates/libzmq-core/src/socket.rs:4569-4622 | For all matching key material, socket types and identities, the four commands succeed exactly if the client key is authorized, and give the expected knowledge and sessions; options that are no keys, a wrong server key and a public key without its secret are refused |
| `CurveCommands.WrongServerRefuses` | crates/libzmq-core/src/socket.rs:4931-4966 | A HELLO sealed for another server is refused, if boxes under the two keys are foreign to each other |
| `CurveCommands.WrongIdentityRefused` | crates/libzmq-core/src/socket.rs:5005-5059 | An INITIATE that claims a public key whose secret the client does not have is refused, if the boxes are foreign |
| `CurveHandshake.WrongKeysExist` | crates/libzmq-core/src/socket.rs:5200-5232 | There are boxes and options for which both refusals apply |
| `CurveHandshake.HandshakeThenMessages` | crates/libzmq-core/src/socket.rs:4569-4622 | The sessions then pair up: each receive counter is the other send counter minus one, and streams in both directions arrive whole |
| `CurveWire.NoNonceReusedIff` | crates/libzmq-core/src/socket.rs:5320-5335 | After a handshake between matching keys, INITIATE, READY and all messages of both directions are sealed under the one session key with 24-byte nonces, no two of which are equal if and only if neither counter has saturated |
| `CurveWire.NonceLayout` | crates/libzmq-core/src/socket.rs:5320-5325 | 24 bytes: the 16-byte text, then the counter in network order |
| `CurveWire.LongNonceLayout` | crates/libzmq-core/src/socket.rs:5327-5332 | 24 bytes: the 8-byte text, then the 16 random bytes |
| `CurveWire.NonceTellsApart` | crates/libzmq-core/src/socket.rs:5320-5325 | Two nonces are equal exactly if text and counter are |
| `CurveWire.HelloLayout` | crates/libzmq-core/src/socket.rs:4781-4802 | HELLO byte by byte, the counter inside the nonce of its box included |
| `CurveWire.WelcomeLayout` | crates/libzmq-core/src/socket.rs:4968-5002 | WELCOME byte by byte, with the cookie inside its box |
| `CurveWire.InitiateLayout` | crates/libzmq-core/src/socket.rs:4822-4858 | INITIATE byte by byte, with the vouch inside its box |
| `CurveWire.ReadyLayout` | crates/libzmq-core/src/socket.rs:5061-5078 | READY byte by byte |
| `CurveWire.MessageLayout` | crates/libzmq-core/src/socket.rs:5080-5108 | MESSAGE byte by byte, with the flag byte before the data |
| `CurveWire.MessageFrameLayout` | crates/libzmq-core/src/socket.rs:5080-5108 | The frame header of a message: two bytes up to 255, else nine |
| `CurveWire.OptionKeyIff` | crates/libzmq-core/src/socket.rs:5175-5187 | A key option is accepted exactly if it is the 32 raw bytes or the Z85 text of them |
| `CurveWire.MetadataSpelled` | crates/libzmq-core/src/socket.rs:5344-5355 | The property names, the type and the identity, if there is one |
| `CurveWire.TypeNamesSpelled` | crates/libzmq-core/src/socket.rs:5357-5380 | The name of every type |
| `CurveSession.CurveSessionObject.constructor` | crates/libzmq-core/src/socket.rs:299-326 | One shared key from the two transient keys, with the given counters and prefixes |
| `CurveSession.CurveSessionObject.Send` | crates/libzmq-core/src/socket.rs:5080-5108 | Writes the frame of the specification and advances the saturating counter |
| `CurveSession.CurveSessionObject.Receive` | crates/libzmq-core/src/socket.rs:5140-5158 | Accepts what the specification accepts and remembers a grown counter even if the box fails |
| `CurveSession.SentBodyReceived` | crates/libzmq-core/src/socket.rs:5140-5165 | A sent body is accepted with its data and more flag exactly when its counter exceeds the receiver's |
| `CurveSession.SendAllBodies` | crates/libzmq-core/src/socket.rs:5167-5173 | The i-th frame carries the i-th message under the i-th counter, which stops at the 64-bit maximum |
| `CurveSession.AcceptedInOrder` | crates/libzmq-core/src/socket.rs:5140-5158 | Under reordering, repetition, loss and frames that do not open, the accepted messages are sent messages in sending order without repeats |
| `CurveSession.AcceptedAreRecords` | crates/libzmq-core/src/socket.rs:5140-5158 | For any arrivals, bodies that do not open included, accepted are exactly the sent messages whose counter exceeds every counter announced before |
| `CurveSession.UnopenableSilences` | crates/libzmq-core/src/socket.rs:5140-5158 | A body that does not open is refused but raises the receive counter to its own |
| `CurveSession.LosslessReceive` | crates/libzmq-core/src/socket.rs:5140-5173 | On a lossless ordered channel exactly the messages sent before the counter saturates are received |
| `CurveSession.LosslessIff` | crates/libzmq-core/src/socket.rs:5140-5173 | Everything is received if and only if the counter does not run out |
| `CurveSession.StreamRoundTrip` | crates/libzmq-core/src/socket.rs:4395-4411 | The same through one byte stream of frames |
| `ZmtpFrame.DecodeAfterEncode` | crates/libzmq-core/src/transport.rs:413-457 | Decoding an encoded frame returns it; versions 1 and 2 drop the command bit |
| `ZmtpFrame.EncodeLayout` | crates/libzmq-core/src/transport.rs:413-432 | First byte in bits (0 more, 1 long, 2 command, the rest clear), then the length in one byte or eight in network order, then the body |
| `ZmtpFrame.DecodeLayout` | crates/libzmq-core/src/transport.rs:434-458 | Exactly which byte strings are accepted, and which bits the flags come from |
| `ZmtpFrame.ReadAfterEncode` | crates/libzmq-core/src/socket.rs:4107-4138 | A frame at the front of a stream is read whole and nothing beyond it |
| `ZmtpFrame.FramesRoundTrip` | crates/libzmq-core/src/socket.rs:4107-4138 | The concatenated encodings of any frames read back as exactly those frames, no bytes left over |
| `ZmtpFrame.TruncatedFrameRejected` | crates/libzmq-core/src/socket.rs:4112-4138 | No proper prefix of a frame is read as a frame |
| `ZmtpFrame.TakenFrameDecodes` | crates/libzmq-core/src/transport.rs:434-457 | Whatever the reader takes off a stream the decoder accepts |
| `ZmtpFrame.ReencodeIff` | crates/libzmq-core/src/transport.rs:413-457 | Re-encoding gives the same bytes exactly when reserved flags are clear and the long form was needed |
| `ZmtpFrame.ReadFrameBytes` | crates/libzmq-core/src/socket.rs:4112-4138 | The step-by-step reader takes exactly one frame off the stream or fails |
| `ZmtpFrame.TakeBodyAfterEncode` | crates/libzmq-core/src/socket.rs:4395-4411 | The body reader returns the body of an encoded frame and leaves the rest |
| `Metadata.Encode` | crates/libzmq-core/src/transport.rs:480-489 | The loop writes the concatenation of the encoded properties |
| `Metadata.Decode` | crates/libzmq-core/src/transport.rs:498-522 | The offset loop computes the reading of the body and never passes its end |
| `Metadata.DecodeAfterEncode` | crates/libzmq-core/src/transport.rs:480-522 | Decoding an encoded list with names up to 255 bytes and values below 2^32 bytes returns the list |
| `Metadata.PropertyLayout` | crates/libzmq-core/src/transport.rs:480-489 | A length byte, the name, four bytes of value length in network order, the value |
| `Utf8.ValidIff` | crates/libzmq-core/src/transport.rs:498-522 | A name is accepted as text exactly if it is the UTF-8 encoding of some sequence of Unicode scalar values |
| `Metadata.EncodeAfterDecode` | crates/libzmq-core/src/transport.rs:480-522 | Re-encoding any accepted body returns the same bytes |
| `Metadata.RoundTripIff` | crates/libzmq-core/src/transport.rs:480-522 | For names that are text, the list comes back if and only if all names and values fit |
| `Metadata.TakeAfterEncode` | crates/libzmq-core/src/transport.rs:480-522 | What comes back of one property: the name cut to 255 bytes if still UTF-8, or a refusal |
| `Metadata.CutNameIsRefused` | crates/libzmq-core/src/transport.rs:480-489 | A 256-byte name cut inside a character is written but then refused |
| `WebSocket.TakeAfterWrite` | crates/libzmq-core/src/socket.rs:3795-3857 | A written frame is read back in all three length bands, masked with any key or not |
| `WebSocket.Unmask` | crates/libzmq-core/src/socket.rs:3851-3855 | The loop masks the payload in place: every bit is flipped exactly if the key, repeating every four bytes, has it set |
| `WebSocket.MaskByteFlips` | crates/libzmq-core/src/socket.rs:3812-3817 | A masked byte differs from the original exactly in the bits that the key byte has set |
| `WebSocket.MaskedByZero` | crates/libzmq-core/src/socket.rs:3812-3817 | A key of zeros leaves the payload alone |
| `WebSocket.MaskedHelloRead` | crates/libzmq-core/src/socket.rs:3824-3857 | The masked example of section 5.7 of RFC 6455, in a binary frame, is read as Hello |
| `WebSocket.HeaderLayout` | crates/libzmq-core/src/socket.rs:3795-3811 | First byte, mask bit and the length in its three forms |
| `WebSocket.HeaderRefusedIff` | crates/libzmq-core/src/socket.rs:3824-3850 | Exactly which headers are refused, and with which error |
| `WebSocket.HeaderExamples` | crates/libzmq-core/src/socket.rs:3795-3811 | The 256-byte and 64 KiB headers of section 5.7 of RFC 6455 |
| `WebSocket.ReadHeader` | crates/libzmq-core/src/socket.rs:3824-3846 | Reads opcode, mask bit and length of any band |
| `WebSocket.ReadBinaryFrame` | crates/libzmq-core/src/socket.rs:3824-3857 | Reads one frame, unmasked, and leaves the rest; close and other opcodes are errors |
| `WebSocket.MaskedTwice` | crates/libzmq-core/src/socket.rs:3808-3855 | Masking twice with one key is the identity |
| `WebSocket.RecvAfterSend` | crates/libzmq-core/src/socket.rs:3074-3098 | A message sent as ZMTP inside a WebSocket frame is recovered with its data and more flag |
| `WebSocket.MessagesRoundTrip` | crates/libzmq-core/src/socket.rs:3074-3098 | Any sequence of messages, each with its own key or none, reads back as the sequence |
| `Z85.Encode` | crates/libzmq-core/src/security.rs:8-23 | The chunk loops compute the base-85 text; lengths not divisible by 4 are refused |
| `Z85.Decode` | crates/libzmq-core/src/security.rs:25-42 | The checked group loops compute the bytes; lengths not divisible by 5 are refused |
| `Z85.DigitFinds` | crates/libzmq-core/src/security.rs:184-189 | The alphabet search finds a byte's position or the byte is not in the alphabet |
| `Z85.ScanAccepts` | crates/libzmq-core/src/security.rs:31-38 | The step-by-step overflow checks accept exactly the groups over the alphabet with value below 2^32 |
| `Z85.DecodeAccepts` | crates/libzmq-core/src/security.rs:25-42 | A text is accepted exactly when every 5-digit group is over the alphabet and below 2^32 |
| `Z85.DecodeAfterEncode` | crates/libzmq-core/src/security.rs:8-42 | Decoding an encoding returns the data |
| `Z85.EncodeAfterDecode` | crates/libzmq-core/src/security.rs:8-42 | Encoding a decoding returns the accepted text |
| `Z85.HelloWorld` | crates/libzmq-core/src/security.rs:8-42 | The test case of ZeroMQ RFC 32/Z85, in both directions |
| `Z85.AlphabetSpelled` | crates/libzmq-core/src/security.rs:5-6 | The 85 characters of the alphabet in order |
| `OptionText.Atoi` | crates/libzmq-core/src/context.rs:669-697 | The two loops return sign times min(N, 2^31-1) for the leading numeral N of any bytes |
| `OptionText.MeaningOfText` | crates/libzmq-core/src/context.rs:669-697 | White space, an optional sign, digits and anything else: the number the digits write, cut off at the largest i32, with the sign |
| `OptionText.SpacesAre` | crates/libzmq-core/src/context.rs:671-676 | The six white-space bytes |
| `OptionText.ScanDigits` | crates/libzmq-core/src/context.rs:688-696 | Saturating steps compute the cut-off numeral |
| `OptionText.ReadAfterPrint` | crates/libzmq-core/src/context.rs:814-816 | A printed i32 reads back as itself, except that the minimum comes back one larger |
| `OptionText.RoundTripIff` | crates/libzmq-core/src/context.rs:853 | Setting the name prefix to a number and reading it back returns it if and only if it is not the minimum i32 |
| `Pipe.YPipe.Push` | crates/libzmq-core/src/pipe.rs:66-77 | Refuses when terminated or full, conflates, or appends |
| `Pipe.YPipe.PushDelimiter` | crates/libzmq-core/src/pipe.rs:102-110 | Appends the delimiter past the mark and closes the pipe |
| `Pipe.YPipe.Pop` | crates/libzmq-core/src/pipe.rs:79-81 | Takes the first frame, if any |
| `Pipe.YPipe.Stop` | crates/libzmq-core/src/pipe.rs:83-86 | Drops what is queued and closes the pipe |
| `Pipe.RunSound` | crates/libzmq-core/src/pipe.rs:52-110 | In every run, bare delimiters passed to write included, occupancy stays within the mark (one more while the closing delimiter is last) and the queue is the latest part of what was accepted |
| `Pipe.WriteAcceptedIff` | crates/libzmq-core/src/pipe.rs:66-77 | After any run, exactly when a write is accepted, refused as closed or refused at the mark; an accepted frame is queued last, and while conflating alone |
| `Pipe.CloseAcceptedIff` | crates/libzmq-core/src/pipe.rs:102-110 | After any run the closing delimiter is accepted exactly if the pipe is open, whatever is queued |
| `Pipe.DelimiterIsLast` | crates/libzmq-core/src/pipe.rs:66-110 | As long as write is given no bare delimiter, an accepted delimiter is the last frame accepted, the pipe is closed, and nothing more is accepted in any continuation |
| `Pipe.DelimiterIsLastIff` | crates/libzmq-core/src/pipe.rs:66-110 | For every accepted delimiter of every run: it is the last frame accepted in all continuations if and only if no frame was accepted after it so far and write_delimiter or terminate was called |
| `Pipe.ItemAfterRawDelimiter` | crates/libzmq-core/src/pipe.rs:66-86 | The failing inputs: an item is accepted after a bare delimiter passed to write, and closing the pipe afterwards does not mend it |
| `Pipe.RunLossless` | crates/libzmq-core/src/pipe.rs:66-86 | Without conflate or terminate, accepted frames are the frames read followed by the frames queued |

## Left out

- Interleavings inside one call: locks are dropped between steps of connect and subscribe; every call is atomic here.
- Several lifetimes of an XPUB name in one run, and XSUBs connected more than once or elsewhere, in `XpubRuns`.
- A connected PUB, and RADIO and DISH over whole runs; what a DISH takes is part of `MatchingPeers` and `AcceptsMessage`.
- Lifecycle messages (hello, probe, disconnect, hiccup) and monitor events.
- Conflation on the in-process send path; `YPipe` conflation is modelled.
- Poisoned-lock errors, and allocation failure or machine-word overflow for absurd announced lengths.
- TCP, IPC, UDP, NORM and WSS connection handling; a stream is the byte sequence that arrives.
- GSSAPI, PLAIN and ZAP; authorization of a CURVE client key is a predicate parameter.
- The ciphers, key derivation and random numbers themselves; the zeroing of secrets.
- Endpoint string parsing, option tables, the C facade, pollers and greetings.
- Connected (not bound) PUSH, PAIR and CHANNEL senders, which have one direct outbox, in `LoadBalance`.
- Multipart requests in `ReqRepNet`: parts of different requesters can interleave in the REP inbox; also user-set routing ids and relaxed REQ sockets there.
- Socket ids of 2^32 and above, whose routing ids wrap.
- The poll for events on load-balancing senders, which moves the round robin; on XPUB it is modelled.
- CurveWire.NoNonceReusedIff: is about the boxes under the session key; WELCOME, cookie and vouch boxes have random nonce tails, which may repeat.
- CurveSession.AcceptedInOrder: assumes that what arrives was sent or does not open, since unforgeability is computational.
- CurveHandshake.Handshake: that a wrong key is refused assumes that boxes under the two keys at hand do not open each other, since separation of keys is computational.
- Registry.ContextShared.ConnectInproc: keeps endpoints as values inside the registry, so sharing of one endpoint object by several sockets is not modelled there; `InprocEndpoint` is the mutable endpoint.
- Endpoint.InprocEndpoint.RemovePeer: does not send the disconnect message.
