# aiterm: verified models of its protocol cores

Dafny 4.11 models of the parts of aiterm that hold protocol, indexing or arithmetic: the renderer's copy of the tab
registry, the relay between phones and desktops, the transcript cache, the commit graph, the terminal write queue, the
console chat, launch command lines, Codex rollout ownership and the repair of truncated text. `dafny verify
dfyconfig.toml` checks everything.

| file | models |
|---|---|
| `TabRegistry.dfy`, `TabRecovery.dfy` | the renderer's projection of the revisioned tab list, and its recovery by snapshots |
| `RelayProtocol.dfy`, `BigEndian.dfy` | connector frames, rendezvous datagrams, the bytes an enrollment signature covers |
| `RelayStreams.dfy`, `RelayTasks.dfy` | stream multiplexing: as steps over every interleaving, and as the tasks' updates of shared state |
| `Provisioning.dfy`, `RateLimit.dfy` | the route table and its persisted list under quotas; the attempt limiter |
| `Text.dfy` | UTF-8 and trimming, shared by the models below |
| `ClientHello.dfy`, `DnsName.dfy` | the TLS ClientHello parser (sections 4.1.2 and 5.1 of RFC 8446, section 3 of RFC 6066) and server names |
| `Calendar.dfy` | milliseconds to an ISO 8601 string |
| `RichBound.dfy`, `RichCache.dfy`, `Conversation.dfy` | the bounded transcript tail, its incremental cache, merging and trimming a conversation |
| `CommitGraph.dfy` | lane assignment and the lines drawn |
| `WriteQueue.dfy` | ordered, coalesced writes with one send in flight |
| `Chat.dfy` | the chat loop, its log and replay |
| `ShellQuote.dfy`, `JsScan.dfy` | launch command lines read back by a shell tokeniser; scanning JavaScript source |
| `Rollout.dfy` | which Codex rollout a process tree owns |
| `Splice.dfy` | filling a truncated text from a blob |

How to read it. State that the program updates in place is a class (`Renderer`, `RelayState`, `RelayRoutes`, `Limiter`,
`RichFileCache`, `LaneTable`, `Writer`, `Console`, `Digest`); each method is tied by its `ensures` to a function of the
old state. Loops are methods with invariants, tied to a function in the same way. What the program promises is then
proved about those functions: as invariants over every run, as round trips with a writer of the same format, or against
an independent definition: the bytes on the wire, the digits of a string, the events of a run. Where a promise needs an
assumption, a lemma gives the run or input on which it fails without it.

Where the code and what is said about it differ, the code is followed:

- The bound of 1,024 buffered tab events holds throughout a run exactly when no event opens a gap while a full buffer is
  left over from a rejected load (`TabRecovery.BoundedExactlyWhen`); such runs exist
  (`TabRecovery.RejectionBreaksTheBound`).
- Data that a desktop sends for a stream before the phone has registered it is dropped, so what a phone is sent is a
  prefix of the payloads since it registered. While a stream can take data, it stays a prefix of all payloads received for
  the stream, whatever happens next, exactly when none came before (`RelayStreams.PrefixOfAllExactlyWhenNothingCameEarly`).
- The limit of 60 attempts in any minute holds for readings that may come late by some lag exactly when that lag is zero:
  one nanosecond already breaks it (`RateLimit.BoundHoldsExactlyWithoutLag`).
- A field of 2^32 bytes or more wraps its length prefix in the enrollment bytes: they determine the enrollment for every
  bound on the field lengths below that, and for none from there on (`RelayProtocol.UnambiguousExactlyBelow32Bits`).
- Bounding a transcript in steps agrees with bounding it once exactly when every overflow has a real prompt that is still
  one after it is capped; the omission marker itself counts as a real prompt (`RichBound.TransparentExactlyWhenAnchored`).
  So a file that was read to its end and only grows is served in full from the cache exactly when it has one
  (`RichCache.GrowthIsServedExactlyWhenAnchored`).
- Truncation is said to reset the transcript cache. Every reader of a rewritten file is served a full parse exactly when
  the rewrite cuts the file below the cached offset or leaves the bytes up to it as they were; a file cut and grown past the
  offset again with other bytes serves stale turns (`RichCache.RewriteIsSafeExactlyWhen`, `RichCache.ARegrownFileIsStale`).
- A trimmed conversation would carry the marker with nothing left out only for an oversized opening turn followed by blank
  ones, which are dropped before (`Conversation.TheMarkerIsHonest`, `Conversation.TheMarkerStandsForTurns`).
- A send that throws before it returns a promise leaves its target without a drain for good if and only if the target was
  idle; on a later turn of a running drain the same throw is an ordinary failed send
  (`WriteQueue.WedgedExactlyWhenHitIdle`, `WriteQueue.OtherThrowsAreFailedSends`).
- A chat's log reads back as the live state, over all runs, exactly when its opening record was written, or it follows an
  old log in which nothing was said and which names the same provider and model (`Chat.TranscriptIsTheLiveState`). Without
  the opening record it never reads back (`Chat.AnUnopenedLogIsLost`).
- User and assistant alternate throughout a chat exactly when no answered exchange has only its first half written
  (`Chat.MessagesAlternate`).
- When Codex processes share rollouts, the order in which the processes are listed can decide the answer. It never does
  exactly when something in the tree cannot be read, or no root in it is strictly newest, or the top owners (those that
  some line of descent reaches before any other owner) all have every root of the tree open, or none of them has
  (`Rollout.ListingDoesNotMatterExactlyWhenSettled`). With one top owner, such as a single Codex process and its
  descendants, it never does.
- A truncated text whose logged tail is empty is never repaired (`Splice.WithoutATailNothingIsFilled`).

## Model

| member | source | states |
|---|---|---|
| TabRegistry.ApplyMoves | src/tabModel.ts:38-45 | an event moves the revision strictly forward to its own or changes nothing, and asks for a snapshot exactly when the projection has not reached it |
| TabRegistry.AppliesExactly | src/tabModel.ts:34-84 | a true event that the projection has passed changes nothing; a snapshot, or the very next event about a listed tab, takes it to the registry's list at the event's revision; a snapshot is needed exactly for any other |
| TabRegistry.RemovalsAreReported | src/tabModel.ts:61-69 | the removed tab and whether it was asked for are reported exactly when a removal is applied |
| TabRegistry.ApplyIsFaithful | src/tabModel.ts:34-84 | one true event, delivered at any moment, leaves the projection showing the registry's list at its own revision |
| TabRegistry.MergeAllMirrors | src/tabModel.ts:47-55 | a snapshot laid over whatever was shown shows the registry: same tabs, same order, every registry field |
| TabRegistry.RendererFieldsSurvive | src/tabModel.ts:52-55 | renderer-only fields of a tab that stays are unchanged by every event; a new tab has none |
| TabRegistry.ApplyCarriesOver | src/tabModel.ts:34-84 | a genuine event that moves the projection gives every tab exactly the renderer-only fields of the tab shown under its id before, and a new tab none |
| TabRegistry.ListIsClean | src-tauri/src/tabs.rs:2372-2420 | every list the registry reaches has distinct ids and complete descriptors |
| TabRecovery.Renderer.Commit | src/tabModel.ts:104-112 | publishes the applied projection once, or reports that a snapshot is needed and changes nothing |
| TabRecovery.Renderer.Accept | src/tabModel.ts:148-163 | buffers up to the bound while a load is in flight, gives the buffer up on overflow, and starts a recovery on a gap |
| TabRecovery.Renderer.SnapshotArrived | src/tabModel.ts:117-140 | one round of the loop: commit, discard on overflow, replay past the snapshot, keep the rest at a gap |
| TabRecovery.PublishedIsTheRegistry | src/tabModel.ts:94-145 | over every run with lost, late and repeated events: each published projection is the registry's list at that revision, revisions strictly increase, and from one to the next, the initial one included, a staying tab keeps its renderer-only fields and a new one has none |
| TabRecovery.NoAcceptedEventIsLost | src/tabModel.ts:114-169 | over every run: with nothing in flight and no load ever rejected, every accepted event is shown and the buffer is empty; the buffer is bounded until a first rejection |
| TabRecovery.RecoverySettles | src/tabModel.ts:117-140 | a load that answers with the newest revision ends the recovery, after one more round if the buffer had overflowed |
| TabRecovery.ReplaysExactly | src/tabModel.ts:128-138 | the replay applies its whole queue, up to the newest revision in it, if and only if the queue has no gap |
| TabRecovery.LoadEndsRecoveryExactly | src/tabModel.ts:117-140 | without an overflow a load of any revision ends the recovery if and only if what was buffered has no gap from there on, and then the newest revision of both is shown |
| TabRecovery.OutgrowsExactlyWhen | src/tabModel.ts:148-163 | the one step that takes the buffer past its bound: an event that opens a gap while no load is in flight and the buffer is full |
| TabRecovery.BoundedExactlyWhen | src/tabModel.ts:114-163 | over every run the bound holds throughout if and only if there is no such step |
| TabRecovery.RejectionBreaksTheBound | src/tabModel.ts:141-162 | a run after a rejected load in which the buffer holds 1,025 events |
| RelayProtocol.Encode | relay-protocol/src/lib.rs:177-205 | appending the parts yields the frame layout, or the error for a zero stream, a bad data size or a long reason |
| RelayProtocol.DecodeOfEncode | relay-protocol/src/lib.rs:177-236 | every frame that has an encoding is read back from it |
| RelayProtocol.EncodeOfDecode | relay-protocol/src/lib.rs:207-236 | every accepted byte string is the one encoding of the frame read from it |
| RelayProtocol.EncodesExactly | relay-protocol/src/lib.rs:177-205 | a frame has an encoding exactly when its id and size allow it, and the bytes of each kind on the wire; the error for a bad size or a long reason |
| RelayProtocol.DecodesExactly | relay-protocol/src/lib.rs:207-236 | bytes are accepted as a frame if and only if they are its encoding |
| RelayProtocol.DirectDecodeOfEncode | relay-protocol/src/lib.rs:45-131 | every rendezvous packet is read back from its encoding |
| RelayProtocol.DirectEncodeOfDecode | relay-protocol/src/lib.rs:79-131 | every accepted datagram is the one encoding of the packet read from it |
| RelayProtocol.PacketOnTheWire | relay-protocol/src/lib.rs:44-78 | the bytes of each rendezvous packet on the wire |
| RelayProtocol.PacketsDecodeExactly | relay-protocol/src/lib.rs:44-131 | a datagram is accepted as a packet if and only if it is its encoding |
| RelayProtocol.Digest.UpdateField | relay-protocol/src/lib.rs:162-165 | feeds a 32-bit length and then the value |
| RelayProtocol.EnrollmentDigest | relay-protocol/src/lib.rs:147-160 | what is hashed is the tag and the four length-prefixed fields, in order |
| RelayProtocol.EnrollmentPositions | relay-protocol/src/lib.rs:147-165 | where the tag and each length and field stand in the hashed bytes |
| RelayProtocol.FieldSplits | relay-protocol/src/lib.rs:162-165 | a length-prefixed field splits off a byte string in only one way |
| RelayProtocol.EnrollmentIsUnambiguous | relay-protocol/src/lib.rs:147-165 | the hashed bytes determine all four fields, for lengths below 2^32 |
| RelayProtocol.EnrollmentAmbiguousAt32Bits | relay-protocol/src/lib.rs:162-165 | at 2^32 bytes two different enrollments hash the same bytes |
| RelayProtocol.UnambiguousExactlyBelow32Bits | relay-protocol/src/lib.rs:147-165 | for every bound on the field lengths: the hashed bytes determine the enrollment if and only if the bound is below 2^32 |
| RelayStreams.NextNonzero | relay/src/lib.rs:869-876 | the counter's next id skips zero and wraps at 64 bits |
| RelayStreams.IdsRepeatOnlyAfterACycle | relay/src/lib.rs:869-876 | two issued ids are equal exactly when a whole cycle of 2^64 - 1 lies between them |
| RelayStreams.StepKeeps | relay/src/lib.rs:726-876 | every step of every task keeps the invariant on connectors, queues, streams and phones |
| RelayStreams.RunKeeps | relay/src/lib.rs:726-876 | so does every interleaving of steps |
| RelayStreams.WrittenIsOwnPrefix | relay/src/lib.rs:759-774 | after every run the bytes written to a phone are a prefix of its own stream's Data payloads since it registered: no gap, reordering or other stream, slow drops and replacements included |
| RelayStreams.NothingIsHeldBack | relay/src/lib.rs:753-774 | after every run, while a stream is registered and nothing of it is in hand, what was received for it since is what was written and what waits in its channel |
| RelayStreams.PrefixOfAllExactlyWhenNothingCameEarly | relay/src/lib.rs:753-774 | after every run, while a stream can take data: over all continuations what its phone is sent stays a prefix of all payloads received for the stream, if and only if none came before the phone registered |
| RelayStreams.EarlyDataIsSkipped | relay/src/lib.rs:759-761 | a run in which Data sent before registration is missing from what the phone gets |
| RelayStreams.MapNamesLiveConnectors | relay/src/lib.rs:734-741 | the connector map never names a finished task, and each entry is under its own route |
| RelayStreams.OnlyItsOwnEndEvicts | relay/src/lib.rs:787-794 | an entry goes only with its own task, for a newer connector, or by deprovisioning |
| RelayStreams.QueuesAreSound | relay/src/lib.rs:824-846 | at most 128 streams per connector, none numbered zero; at most 256 queued frames, each of which has an encoding |
| RelayStreams.FramesOfAStream | relay/src/lib.rs:835-866 | the frames of one stream on its connector's queue read Open Data* Close? |
| RelayStreams.FramesStayHome | relay/src/lib.rs:821-866 | no other connector's queue ever carries a frame of the stream |
| RelayStreams.SentIsWhatWasRead | relay/src/lib.rs:835-866 | after every run the bytes of a stream's Data frames are all the bytes read from its phone, in order |
| RelayStreams.SentInOrder | relay/src/lib.rs:748-752 | after every run what a connector's task has sent and then its queue are all the frames put on it, in order |
| RelayStreams.StreamsChangeExactly | relay/src/lib.rs:759-866 | a stream is a connector's after a step exactly when it registers among fewer than 128, or was its and is not dropped, closed or ended |
| RelayStreams.RoutesChangeExactly | relay/src/lib.rs:607-794 | a route names a connector after a step exactly when that one has just connected, or was named and neither ended nor was deprovisioned |
| RelayStreams.LivesChangeExactly | relay/src/lib.rs:726-794 | a connector's task serves from its connect until it leaves and is over when it has finished |
| RelayStreams.SlowExactly | relay/src/lib.rs:762-771 | a phone is dropped as slow exactly when 32 payloads wait for it or its task is gone; any other is handed the payload |
| RelayStreams.WaitsExactly | relay/src/lib.rs:832-866 | a phone's frames wait exactly while 256 frames are queued or the connector's task is over, and Open and Close are then given up |
| RelayStreams.IdsAreFresh | relay/src/lib.rs:823-831 | after every run a new stream's id is one no stream has had |
| RelayTasks.RelayState.Connect | relay/src/lib.rs:726-743 | inserts the new generation and hands back the one it replaces |
| RelayTasks.RelayState.SendNext | relay/src/lib.rs:748-752 | takes the oldest queued frame, which always has an encoding |
| RelayTasks.RelayState.Receive | relay/src/lib.rs:753-784 | what each kind of message, and one that does not decode, does to the connector's state |
| RelayTasks.RelayState.TrySend | relay/src/lib.rs:762-764 | the payload goes into the phone's channel unless that is full or gone |
| RelayTasks.RelayState.Drop | relay/src/lib.rs:764-771 | the slow phone's stream is removed and the desktop is told with a valid Close |
| RelayTasks.RelayState.End | relay/src/lib.rs:787-794 | removes the map entry only if its generation is this task's |
| RelayTasks.RelayState.Arrive | relay/src/lib.rs:821-823 | a phone gets the next stream id, or is turned away without a connector |
| Provisioning.RelayRoutes.Provision | relay/src/lib.rs:445-586 | the verdict in the order of the checks, and table, list and file together or none of them |
| Provisioning.RelayRoutes.Deprovision | relay/src/lib.rs:607-642 | removes exactly the record with the id and hash, in all three places or in none |
| Provisioning.RelayRoutes.Persist | relay/src/lib.rs:695-711 | writes the file, or leaves it as it was |
| Provisioning.VerdictExactly | relay/src/lib.rs:455-553 | for every request: accepted if and only if allowed, well-formed, signed, under a valid new id with a readable hash and with room under all three quotas, each counted as a set; and each refusal exactly in its case |
| Provisioning.RoutesAreTheUnion | relay/src/lib.rs:148-195 | a route answers exactly for a static entry or a stored record, never both, with that one's hash; sizes add up |
| Provisioning.ProvisionKeeps | relay/src/lib.rs:511-585 | keeps table, list and file in step and every quota that held, failed writes included |
| Provisioning.DeprovisionKeeps | relay/src/lib.rs:619-641 | the same for removal |
| Provisioning.RunStaysInStep | relay/src/lib.rs:511-641 | the same after any sequence of both |
| Provisioning.OnlyAuthenticAreAdded | relay/src/lib.rs:445-642 | after any operations each stored record was there at first or came with an authentic request |
| Provisioning.DeprovisionUndoesProvision | relay/src/lib.rs:445-642 | removing with the right token restores the exact state before the provision |
| Provisioning.DeprovisionsExactly | relay/src/lib.rs:607-642 | exactly a record with the id and the token's hash is taken away, and its route; every other stays |
| Provisioning.HashReadsBack | relay/src/lib.rs:1046-1055 | a 32-byte hash written in hexadecimal is read back |
| Provisioning.LoadStatics | relay/src/lib.rs:135-148 | accepts exactly distinct, valid, readable entries, and loads their table |
| Provisioning.LoadStored | relay/src/lib.rs:166-188 | accepts exactly sound records under ids that are new, and extends the table by them |
| Provisioning.FromConfig | relay/src/lib.rs:133-211 | with provisioning, starting up succeeds exactly on sound settings, static entries and stored records within the total, and the result is in step |
| RateLimit.Limiter.AllowProvisionAttempt | relay/src/lib.rs:588-605 | reaps after 300 seconds, restarts after 60, counts and decides, for this address only |
| RateLimit.CallsKeep | relay/src/lib.rs:588-605 | what the table says about an address after any calls with nondecreasing readings |
| RateLimit.AdmitsExactly | relay/src/lib.rs:588-605 | with nondecreasing readings an attempt is admitted if and only if it is among the first thirty of its address since its window was opened; refusals, other addresses and the clearing of old entries move no window |
| RateLimit.AtMostSixtyAMinute | relay/src/lib.rs:588-605 | with nondecreasing readings no closed span of 60 seconds admits more than 60 attempts of an address |
| RateLimit.OneNanosecondBreaksTheBound | relay/src/lib.rs:588-605 | readings late by one nanosecond under which one such span admits more |
| RateLimit.BoundHoldsExactlyWithoutLag | relay/src/lib.rs:588-605 | for every lag: all runs whose readings go back by at most that lag keep the limit if and only if the lag is zero |
| Text.DecodesExactly | relay/src/lib.rs:1025 | bytes decode to a text if and only if they are its UTF-8 encoding (section 3 of RFC 3629) |
| Text.TrimExactly | relay/src/lib.rs:894 | trimming takes white space off both ends, and leaves none there |
| DnsName.CanonicalIsFixed | relay/src/lib.rs:893-911 | normalising a canonical name changes nothing |
| DnsName.NormalizesExactly | relay/src/lib.rs:893-911 | a text is normalised to a name if and only if the name is canonical and the text is the name in any case, with dots after it and white space around |
| DnsName.LabelsExactly | relay/src/lib.rs:897-905 | the labels are what stands between the dots |
| DnsName.PublicNameRoundTrip | relay/src/lib.rs:878-911 | the name a route is published under is canonical and leads back to that route |
| DnsName.RoutesExactly | relay/src/lib.rs:878-882 | a name leads to a route if and only if it is that route's public name |
| DnsName.RouteIdsAreLabels | relay/src/lib.rs:884-891 | a route id is a label of at least eight characters |
| ClientHello.Take | relay/src/lib.rs:1034-1039 | the next bytes, or Incomplete without moving |
| ClientHello.Reassemble | relay/src/lib.rs:948-985 | the loop over records computes the reassembled message or the first error |
| ClientHello.ParseClientHelloSni | relay/src/lib.rs:948-1032 | the whole parser computes the specified answer |
| ClientHello.AnswersAreStable | relay/src/lib.rs:948-1032 | an accepted or rejected hello stays so whatever bytes follow |
| ClientHello.StrictPrefixesAreIncomplete | relay/src/lib.rs:948-985 | every strict prefix of the records an accepted hello consumed is Incomplete |
| ClientHello.FragmentationIsInvisible | relay/src/lib.rs:948-985 | any split of an exact message into nonempty records within the limit gives the same answer |
| ClientHello.BodyOfMessage | relay/src/lib.rs:986-1032 | a written hello with any session id, ciphers, other extensions and name entries reads back to its host |
| ClientHello.WrittenHelloIsRead | relay/src/lib.rs:948-1032 | the same through any fragmentation and with anything after it |
| ClientHello.AcceptedIsWritten | relay/src/lib.rs:948-1032 | whatever is accepted is whole handshake records within the limit whose payloads hold a ClientHello with well-formed fields, and the answer is its host |
| ClientHello.HostIsReadExactly | relay/src/lib.rs:1024-1027 | a host is read as a name if and only if the name is canonical and the bytes encode a spelling of it |
| ClientHello.AnySpellingReachesRoute | relay/src/lib.rs:878-1032 | a hello for any spelling of a route's public name is answered with that name and leads to that route |
| ClientHello.PublicNameReachesRoute | relay/src/lib.rs:878-1032 | in particular one for the bytes of the name itself |
| Calendar.YearOfEraBounds | src-tauri/src/detail.rs:190-193 | the division formula finds the year a day of the era falls in |
| Calendar.CivilIsTheCalendar | src-tauri/src/detail.rs:183-199 | day zero is 1 January 1970 and each next day is the Gregorian calendar's next day, so every date is valid |
| Calendar.StringOrderIsTimeOrder | src-tauri/src/detail.rs:183-205 | through year 9999, string order is time order, both ways |
| Calendar.IsoHasStampShape | src-tauri/src/detail.rs:198-204 | through year 9999 the string has the 24-character shape the rollout resolver accepts |
| Calendar.IsoSpellsTheMoment | src-tauri/src/detail.rs:183-205 | through year 9999 the digits spell the date and the time of day, which together are the moment |
| Calendar.LongYearsBreakTheShape | src-tauri/src/detail.rs:198-204 | from year 10000 on it never has, so the bound is exact |
| RichBound.Cap | src-tauri/src/detail.rs:1061-1071 | the text if it fits, or its longest prefix at a character boundary that leaves room for the marker |
| RichBound.TailIsLongest | src-tauri/src/detail.rs:903-913 | the kept tail fits its budget and no longer one does |
| RichBound.NewestThatFit | src-tauri/src/detail.rs:902-914 | the reverse loop computes that tail |
| RichBound.BoundTurns | src-tauri/src/detail.rs:889-920 | the trimming computes the capped first real prompt, the marker and the tail |
| RichBound.OverflowKeepsBothEnds | src-tauri/src/detail.rs:889-920 | what overflows keeps its first real prompt, capped, the marker, and the longest newest run behind it that fits with both |
| RichBound.BoundFits | src-tauri/src/detail.rs:889-920 | the bounded text is at most 2 MiB, and bounding again changes nothing |
| RichBound.BoundIsIncremental | src-tauri/src/detail.rs:889-920 | for anchored turns, bounding, appending and bounding again is bounding once |
| RichBound.TransparentExactlyWhenAnchored | src-tauri/src/detail.rs:889-920 | bounding in steps is invisible for every continuation if and only if the turns fit or have a real prompt that is still one when capped |
| RichCache.RichFileCache.Claim | src-tauri/src/detail.rs:944-978 | a new session, path, identity or shorter file starts over, and only a ninth session evicts |
| RichCache.RichFileCache.RemoveOldest | src-tauri/src/detail.rs:949-957 | removes exactly the least recently used entry |
| RichCache.RichFileCache.ReadLines | src-tauri/src/detail.rs:982-1000 | reads on over complete lines and stops before a partial or unreadable one |
| RichCache.RichFileCache.Events | src-tauri/src/detail.rs:932-1003 | one refresh, with an unopenable file and a failing seek |
| RichCache.ParseStops | src-tauri/src/detail.rs:984-993 | parsing stops only before an incomplete line or one that is not text |
| RichCache.ParseResumes | src-tauri/src/detail.rs:928-931 | where a parse of a prefix stopped a parse of the whole can resume |
| RichCache.RefreshKeepsSound | src-tauri/src/detail.rs:940-978 | at most eight entries with distinct moments of use, and no other session's entry changes |
| RichCache.OnlyTheOldestIsEvicted | src-tauri/src/detail.rs:949-957 | what is evicted was used strictly before every other entry |
| RichCache.LongestUnusedIsEvicted | src-tauri/src/detail.rs:936-957 | after any run what a refresh evicts, of eight sessions, is the one whose last refresh is longest ago |
| RichCache.RunHolds | src-tauri/src/detail.rs:922-1003 | after any writes, cuts, replacements, refreshes and evictions every entry is a full parse, bounded once, of the bytes it was read from |
| RichCache.ServedIsAFullParse | src-tauri/src/detail.rs:922-1003 | after any run a refresh serves what an empty cache would, if the entry starts over or the file still begins with the bytes read |
| RichCache.AnEmptyCacheServes | src-tauri/src/detail.rs:922-1003 | an empty cache serves the full parse, bounded once to at most 2 MiB |
| RichCache.TransparentExactlyWhen | src-tauri/src/detail.rs:922-1003 | after any run it serves that to every reader that takes the same lines for text and whose overflows are anchored, if and only if so |
| RichCache.CarefulRunIsTransparent | src-tauri/src/detail.rs:922-1003 | when every write cuts a file below what was read of it or leaves that as it was, every refresh of the run serves what an empty cache would |
| RichCache.RewriteIsSafeExactlyWhen | src-tauri/src/detail.rs:929-946 | after such a run the refresh after one more rewrite of a cached file serves every such reader a full parse if and only if the rewrite does the same; after any other, some reader is served stale turns |
| RichCache.ARegrownFileIsStale | src-tauri/src/detail.rs:929-946 | a run that meets the conditions, and a rewrite after it that is served stale |
| RichCache.GrowthIsCareful | src-tauri/src/detail.rs:922-931 | appending, and replacing a file by a new one under its name, are such writes |
| RichCache.GrowthIsServedExactlyWhenAnchored | src-tauri/src/detail.rs:922-1003 | after any anchored run and a refresh of a file read to its end: whatever is appended, a full parse is served, if and only if the turns are anchored then |
| RichCache.EveryRunFits | src-tauri/src/detail.rs:846-1003 | after any run, anchored or not, at most eight entries of at most 2 MiB of text |
| Conversation.Merge | src-tauri/src/detail.rs:1019-1031 | the loop joins what one speaker said in a row |
| Conversation.MergedAlternates | src-tauri/src/detail.rs:760-771 | no two turns in a row are left to join |
| Conversation.MergedSaysTheSame | src-tauri/src/detail.rs:760-771 | merging loses and reorders nothing a role said |
| Conversation.ToolTurnsStayApart | src-tauri/src/detail.rs:1019-1031 | in the rich conversation tool calls stay separate turns, unchanged and in order |
| Conversation.OnlySpeechIsJoined | src-tauri/src/detail.rs:1019-1031 | in the rich conversation every other role's turns are as they were, and no two in a row are the user's, the assistant's or thinking |
| Conversation.MergedIsIncremental | src-tauri/src/detail.rs:1019-1031 | merging in steps is merging at once |
| Conversation.Trim | src-tauri/src/detail.rs:772-797 | the reverse loop computes the trimmed conversation |
| Conversation.TrimsExactlyWhenTooLong | src-tauri/src/detail.rs:772-796 | a conversation that fits or is too short comes back whole; in any other the marker is second |
| Conversation.TrimmedKeepsBothEnds | src-tauri/src/detail.rs:772-797 | the opening turn and the longest run of newest turns that fits beside it |
| Conversation.TheMarkerIsHonest | src-tauri/src/detail.rs:772-797 | the trimmed conversation is no longer than the whole if and only if the opening turn fits the budget or something was said after it |
| Conversation.TheMarkerStandsForTurns | src-tauri/src/detail.rs:755-797 | with blank turns dropped first, the marker always stands for at least one turn left out |
| CommitGraph.LaneTable.Alloc | src/graph.ts:26-34 | takes the first empty lane or a new one, in place |
| CommitGraph.LaneTable.Place | src/graph.ts:36-86 | one commit's row and the lanes after it |
| CommitGraph.ComputeGraph | src/graph.ts:22-89 | the loop computes the rows |
| CommitGraph.DotIsLeftmost | src/graph.ts:37-42 | the dot takes the leftmost lane waiting for it, else the leftmost empty one |
| CommitGraph.InputsAreTheLanes | src/graph.ts:46-56 | every lane in use enters a row once: straight, or into the dot if it waited for this commit |
| CommitGraph.ParentsAreDrawn | src/graph.ts:61-71 | each parent, in order, has a line from the dot to a lane that then waits for it |
| CommitGraph.ExtraParentsJoin | src/graph.ts:67-70 | an extra parent for which another lane waits joins it, and no further lane waits for it |
| CommitGraph.EdgeIsDrawn | src/graph.ts:36-86 | an edge to the next listing of a parent is one unbroken line: out of the dot, straight past every dot between, into the parent's dot |
| CommitGraph.EveryListedEdgeIsDrawn | src/graph.ts:36-86 | for distinct commits, children first, that is every edge to a listed parent |
| CommitGraph.InputsAreEdges | src/graph.ts:53-56 | every line into a dot is such an edge from a listed child |
| CommitGraph.LaneIsAnEdge | src/graph.ts:61-71 | every lane in use was opened by an edge to the commit it waits for |
| CommitGraph.LanesAwaitTheUnseen | src/graph.ts:17-21 | lanes hold exactly the commits named as parents and not listed since |
| CommitGraph.LanesAwaitReferencedButUnlisted | src/graph.ts:17-21 | for distinct commits, children first: exactly those referenced and not listed |
| CommitGraph.RowsFitTogether | src/graph.ts:43-71 | a row's lines end in exactly the lanes where the next row's lines begin |
| CommitGraph.NothingEntersTheFirstRow | src/graph.ts:53-56 | the first row has no lines above it |
| CommitGraph.TheGraphIsNarrow | src/graph.ts:26-34 | the drawing is never wider than the most lanes in use at once |
| CommitGraph.TheWidthIsExact | src/graph.ts:73-84 | each row is its commit's, and its width is the greatest lane of its dot, its lines and the lanes after it |
| CommitGraph.LanesEndInUse | src/graph.ts:71 | behind the lanes in use no empty one is kept |
| WriteQueue.Writer.Write | src/writeQueue.ts:49-58 | queues under the identity with the latest target, and starts a drain only if none runs |
| WriteQueue.Writer.Resume | src/writeQueue.ts:29-46 | a settled send is followed by what waits, by the end of the drain, or by dropping what waits |
| WriteQueue.WriteKeeps | src/writeQueue.ts:49-58 | a write keeps the invariant of every target |
| WriteQueue.SettleKeeps | src/writeQueue.ts:29-46 | so does a completed or failed send |
| WriteQueue.RunKeeps | src/writeQueue.ts:20-58 | so does every interleaving of both |
| WriteQueue.NothingIsLostOrReordered | src/writeQueue.ts:24-56 | bursts and then the outbox are all of a target's writes in order, each burst a whole block of calls for the latest target; bytes wait only behind a running drain |
| WriteQueue.OneSendInFlight | src/writeQueue.ts:26-28 | at most one send per target is outstanding, exactly while its drain runs |
| WriteQueue.ResolvedMeansSent | src/writeQueue.ts:29-46 | a resolved promise means that the caller's bytes were sent, in one piece |
| WriteQueue.SettlesExactly | src/writeQueue.ts:29-58 | after every run a call's promise that no longer waits is rejected if and only if a call with that promise was in a failed send; with nothing outstanding none waits |
| WriteQueue.QuietMeansEmpty | src/writeQueue.ts:29-46 | with no send outstanding nothing is queued and no drain is recorded |
| WriteQueue.WedgedExactlyWhenHitIdle | src/writeQueue.ts:29-58 | over every run of writes, settled sends and throws, a target is wedged if and only if a send of it threw while it was idle |
| WriteQueue.WedgedForGood | src/writeQueue.ts:49-58 | a wedged target takes no burst again, whatever comes later |
| WriteQueue.ALaterThrowIsAFailedSend | src/writeQueue.ts:29-46 | a throw on a later turn of the drain leaves the same state as a send that is handed over and fails |
| WriteQueue.AnIdleThrowStaysOnRecord | src/writeQueue.ts:49-58 | a throw on an idle target leaves that state too, but for the drain recorded after it ended |
| WriteQueue.OtherThrowsAreFailedSends | src/writeQueue.ts:29-58 | a run in which no send throws on an idle target ends where a run without throws does, with its invariant |
| Chat.ParseTranscript | src-tauri/src/chat.rs:56-98 | the loop replays the records |
| Chat.ReadTurn | src-tauri/src/chat.rs:395-416 | the loop joins continued lines |
| Chat.ContinuedExactly | src-tauri/src/chat.rs:395-416 | a line is continued exactly when it ends in one backslash |
| Chat.LineBreaksGo | src-tauri/src/chat.rs:395-416 | every line break at the end of a line is taken off and nothing else |
| Chat.TypedIsRead | src-tauri/src/chat.rs:110-119 | a message typed over several lines is read as those lines, and takes no line after them |
| Chat.Console.Begin | src-tauri/src/chat.rs:502-543 | a start under an id: the log stays open on the old transcript, or on a new one with or without its opening record |
| Chat.Console.Enter | src-tauri/src/chat.rs:420-498 | what each command and each outcome of a send does to messages, model and log |
| Chat.Console.Append | src-tauri/src/chat.rs:546-553 | a failed write closes the log |
| Chat.SaidSinceTheLastClear | src-tauri/src/chat.rs:420-498 | for every start and run of lines until the console is told to stop: the messages are the trimmed ordinary lines answered since the last clear, each with its reply, in order; the model is the last one swapped to; what was cleared is counted; it runs exactly until then |
| Chat.SwapAsTyped | src-tauri/src/chat.rs:445-453 | a swap as it is typed names its model |
| Chat.TranscriptIsTheLiveState | src-tauri/src/chat.rs:320-553 | over every run, failing writes and resumes included, the open log reads back as the live provider, model, messages and cleared count, if and only if the start was clean: a new log whose opening record was written, or an old one in which nothing was said and which names this provider and model |
| Chat.LogFollowsTheOldChat | src-tauri/src/chat.rs:56-98 | for every start and run: while the log is open it reads back as the old chat followed by the live one, until a clear or a swap is written, and exactly as the live one after a resume |
| Chat.UntouchedReadsBack | src-tauri/src/chat.rs:56-98 | a log replays to an empty chat with this provider and model if and only if nothing was said in it, its last opening is for the provider, and its last swap or else its first naming opening is for the model |
| Chat.AnUnopenedLogIsLost | src-tauri/src/chat.rs:520-538 | a log whose opening record was not written never reads back, after any run |
| Chat.MessagesAlternate | src-tauri/src/chat.rs:454-495 | over every run from a state in turn: the messages, live and in the log, alternate user and assistant at every point if and only if no answered exchange is half-written |
| Chat.StartsInTurn | src-tauri/src/chat.rs:320-358 | a start is in turn exactly when it has no old log or one whose messages alternate |
| Chat.ResumeRestores | src-tauri/src/chat.rs:332-358 | from a clean start, while the log is open, leaving and resuming changes nothing |
| Chat.AHalfWrittenExchangeBreaksTheTurns | src-tauri/src/chat.rs:470-481 | after any half-written exchange a resume starts with a user's turn left open, and the next answered send puts two in a row |
| ShellQuote.QuotedIsOneWord | src-tauri/src/agents.rs:335-337 | a quoted value is read as that one word if and only if it holds no NUL |
| ShellQuote.JoinedQuote | src-tauri/src/agents.rs:335-337 | a quoted value joins the word it stands in, and nothing else |
| ShellQuote.CodexLaunch | src-tauri/src/agents.rs:1297-1310 | a shell reads exactly the intended arguments, the joined effort word and the trimmed prompt last |
| ShellQuote.OpenCodeLaunch | src-tauri/src/agents.rs:1388-1398 | the same for OpenCode |
| ShellQuote.ChatLaunch | src-tauri/src/agents.rs:1540-1555 | the same for the chat, whose program path is quoted too |
| ShellQuote.PromptExactly | src-tauri/src/agents.rs:328-333 | a prompt is passed if and only if it is not blank, and then without the white space around it |
| ShellQuote.ArgumentsSpelledOut | src-tauri/src/agents.rs:1297-1555 | the whole argument lists with everything given and with nothing given |
| JsScan.Balanced | src-tauri/src/agents.rs:895-924 | the scan computes what is inside the first brackets |
| JsScan.FirstGroupIsFound | src-tauri/src/agents.rs:893-924 | whatever is written between the first brackets, nested brackets and strings holding brackets included, is found whole, with string literals and stray closing brackets before it and anything after it |
| JsScan.NothingIsFound | src-tauri/src/agents.rs:895-924 | where no bracket is closed nothing is found |
| JsScan.TopObjects | src-tauri/src/agents.rs:926-960 | the scan computes the bodies of the outermost objects |
| JsScan.ObjectsSplit | src-tauri/src/agents.rs:926-960 | a written list of objects, with string literals and loose text before and between them, comes back as all their bodies in order, followed by those of whatever comes after |
| JsScan.EveryObjectIsFound | src-tauri/src/agents.rs:926-960 | with only string literals and loose text after it, exactly those bodies |
| JsScan.QuotedStringAt | src-tauri/src/agents.rs:962-989 | the scan resolves the escapes of the string it stands before |
| JsScan.QuotedReadsBack | src-tauri/src/agents.rs:962-989 | any text written as a string literal reads back as that text |
| JsScan.OnlyWholeStringsAreRead | src-tauri/src/agents.rs:962-989 | a string literal that does not end is not read |
| Rollout.ListChildren | src-tauri/src/codex_identity.rs:24-42 | a process is listed under a parent exactly when its status names that parent |
| Rollout.Walk | src-tauri/src/codex_identity.rs:44-85 | the worklist computes the owners found in its visiting order |
| Rollout.Resolve | src-tauri/src/codex_identity.rs:22-107 | the resolver computes the answer for that order |
| Rollout.WorklistVisitsTheTree | src-tauri/src/codex_identity.rs:44-52 | whatever the parent relation, cycles included, each descendant is visited exactly once and nothing else is |
| Rollout.ChosenIsNewest | src-tauri/src/codex_identity.rs:92-107 | the choice is the only root's id, or the strictly newest one's when all are well stamped, and none otherwise |
| Rollout.ResolvesToTheNewestRoot | src-tauri/src/codex_identity.rs:22-107 | with all readable, whatever is shared and in any visiting order: an id comes back if and only if the first owner visited has every root of the tree open and it is that of its only or strictly newest root |
| Rollout.UnsharedResolvesToTheSoleOwner | src-tauri/src/codex_identity.rs:22-107 | with nothing shared: if and only if one process owns roots and it is that of its only or strictly newest root |
| Rollout.FirstOwnerIsTop | src-tauri/src/codex_identity.rs:44-52 | the first owner the worklist visits is one that some line of descent reaches before any other |
| Rollout.TopOwnerCanBeFirst | src-tauri/src/codex_identity.rs:24-52 | each such owner is visited first for some listing of the same processes |
| Rollout.ListingDoesNotMatterExactlyWhenSettled | src-tauri/src/codex_identity.rs:22-107 | every listing of the same processes gives one answer if and only if the tree is unreadable, has no strictly newest root, or its top owners all have every root open or none has |
| Rollout.UnreadableMeansNoAnswer | src-tauri/src/codex_identity.rs:61-84 | anything unreadable in the tree means no answer |
| Rollout.ResolveIsCorrect | src-tauri/src/codex_identity.rs:22-107 | the resolver's answer, shared rollouts and unreadable processes included, for the order the worklist takes |
| Rollout.SharedRolloutsDependOnOrder | src-tauri/src/codex_identity.rs:79-84 | a shared rollout for which the order of two siblings decides between an answer and none |
| Splice.FindBytes | src-tauri/src/antigravity.rs:348-356 | the first occurrence at or after an index, or none |
| Splice.NumbersExactly | src-tauri/src/antigravity.rs:326 | a number is read exactly when its digits, after at most one plus sign, spell one below 2^64 |
| Splice.GapsExactly | src-tauri/src/antigravity.rs:324-335 | a gap is read exactly from a text with the marker, a number and the closing at their first places, less one line break on each side |
| Splice.ResultIsASliceOfTheBlob | src-tauri/src/antigravity.rs:323-346 | a repaired text is a contiguous slice of the blob with the logged ends and exactly the promised bytes between |
| Splice.GapRoundTrip | src-tauri/src/antigravity.rs:324-335 | a logged gap is read back, unless its head holds the marker |
| Splice.FullTextIsRecovered | src-tauri/src/antigravity.rs:320-346 | the full text comes back whenever its head, and then its tail, first occur in the blob where it stands |
| Splice.OnlyFirstOccurrencesCount | src-tauri/src/antigravity.rs:336-345 | a repair succeeds if and only if head and tail are not both empty, both are found, and their first occurrences leave the promised bytes, all text, between them |
| Splice.WithoutATailNothingIsFilled | src-tauri/src/antigravity.rs:340-343 | an empty tail is never repaired |

## Left out

Assumptions, each stated where it is used:

- Tab recovery: a load answers with a state no older than its start, descriptors carry every registry-owned field, the
  publishing callback does not call back in, and the loop's return and clearing of the promise are one step.
- Relay: sockets, TLS, HTTP status codes, timeouts and task scheduling are channels and steps; the 64-bit generation
  counter and the count of issued streams do not run out. SHA-256, signatures and base64 checks are results given to the
  model; for enrollments only the hashed bytes are modelled. A token whose hash text is not ASCII is not modelled.
- Rate limit: the clock is a number of nanoseconds read at each call.
- Transcript cache: what a line decodes to and which texts are real prompts are parameters, the omission marker being
  one, as it is in src-tauri/src/sessions.rs; a refresh sees one state of the file; the use clock does not wrap.
- Chat: transcript lines are read back as they were written; requests, streaming frames, attribution and the provider
  store are not modelled; a failing write leaves no partial line.
- Write queue: completions are handled one at a time, in any order.
- Rollout resolver: one snapshot of the processes, descriptors and headers; JSON and file access give those values.
- Splice: a text is its UTF-8 bytes.

Not modelled:

- RelayStreams.WrittenIsOwnPrefix: says nothing of payloads sent before the phone registered, because the relay drops them.
- RelayStreams.StepKeeps: the tasks' steps are over values; RelayTasks has the same steps as updates in place, with the phones and connectors themselves as values in the shared maps.
- Chat.Console.Begin: not a start whose log cannot be opened at all, which runs like one whose log has closed.
- ShellQuote.CodexLaunch: shells beyond quoting, such as aliases, are not modelled.
- Revisions, offsets and lengths are unbounded integers except where a width matters: stream ids, length prefixes, the
  promised byte count of a truncated text.
- A relay configured without provisioning, its public names and ports, and reading the store file.
- Which turns are dropped as system blocks or blank before a conversation is merged.
- The direct rendezvous service, the relay client hooks, settings, brand lookup, time labels and theme contrast.
- Process spawning, agent detection, updates, publishing, SQLite and file watching.
- Small helpers such as selection, ordering, terminal title parsing and the exit catch-up: easy members.
- The Claude and Grok launch strings, which add flags of the same shapes.
