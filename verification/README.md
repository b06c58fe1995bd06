# DTLS 1.3 engine: a verified model

This project models the DTLS 1.3 engine of the `internal/dtls13` package (RFC 9147, with the return
routability check of RFC 9853 and a path MTU search in the style of RFC 8899) in Dafny and proves what
it keeps over whole runs. `dafny verify dfyconfig.toml` checks every file.

What is proved, by component:

- Reliable handshake delivery. `Fragments` and `Reassembly` describe the receiver, and `Acceptance` says
  exactly what it takes; `Flights` and `FlightSender` describe the sender, and `FlightOutcomes` says
  exactly when a flight is over or given up; `Outlets` is record numbering. `Channel` joins both ends
  over a network that loses, repeats and reorders, and shows that acknowledged means arrived, but for
  plaintext in doubt; `EvictionRun` shows how doubt arises.
- Epochs and KeyUpdate. `Receiving` and `Sending` are the two halves of a session as machines whose
  steps may come in any order their guards allow; `KeyUpdate` shows that the reader always has the
  writer's keys, and `UpdateRun` carries one update through from end to end. `Withdrawals` adds message
  numbers that are taken back while their packet is on the network, and `WithdrawalRun` shows how that
  parts the two ends. `Sessions` holds the tables as objects and shows that their methods are runs of
  those machines.
- Record layer. `Records` and `Replay`: round trip, exact number reconstruction, and a 64-bit window
  that answers as a plain set would.
- Path validation and connection IDs. `Path` keeps a ledger of bytes per address; `ConnectionIds` shows
  that the listener's index and every session's pool agree.
- Path MTU. `MtuSearch`, `Sizing`, `Discovery`, and `PathSearch`, which ties the search to the session.
- Stateless admission. `Admission`, `CookieKeys`, `Identities`, `Retry` and `RetryIssue`, with one
  exchange in `RetryRun`.
- Codecs (`Wire`, `Hello`, `HelloForms`, `Acks`), shared-socket writes and their cancellation
  (`Transport`), and the callers that wait for them (`Callers`).
- `Bitmap`, `Budget` and `Ledgers` hold what several of these share.

Where the source changes state in place, a class has the same fields. Its methods state what they mean
for a caller, often through ghost fields (the set of accepted numbers, the bytes sent to each address,
when each key was last used), and are equal to a function of the old state; the theorems over runs are
about those functions. AEAD, MAC and hash functions are parameters with the laws a proof needs
(`Records.Lawful`, `Retry.Lawful`). Randomness, the clock, and whether the socket takes a packet are
arguments. Clocks are integers.

Modelling decisions:

- Bitmaps are `seq<bv8>` in the objects and sets of positions in the descriptions; each object carries
  the set as a ghost field tied to its bitmap.
- The machines break a call into smaller steps than the source does, so they allow more runs than the
  source has. A session's handshake enters through two guards: a completed handshake means that the
  peer has the application keys and saw every plaintext message (`Channel.PeerReady`), and a flight
  ended by the peer's answer had been delivered.
- A send that returns an error may have put its packet on the network all the same; `Callers` proves
  when. A retransmitted part whose send failed so is `Channel.Unrecorded`; the first part of a flight
  after the handshake, whose message number the source then takes back, is `Withdrawals.Withdraw`. A
  socket write itself either sends the datagram or fails.
- Acknowledgements in plaintext can be forged by anyone, and `Channel` has them arrive with any number.
  A receiver that has no keys yet is an entry of a cache and can be evicted at any time with what it
  has buffered. Either leaves a plaintext message in doubt.
- The checks at `internal/dtls13/flight.go:143-148` cannot fail; the model proves this instead of
  branching.

Places where the code does less than its purpose suggests, with the exact condition:

- A record within the reconstruction window still comes back only if the replay window admits it
  (`Records.RecordRoundTrip`).
- Acknowledged plaintext may be lost with an evicted cache entry (`EvictionRun.AcknowledgedAndLost`,
  exactly when in `Channel.EvictionLosesExactly`); what is not in doubt has arrived
  (`KeyUpdate.AcknowledgedFlightsArrived`).
- A message number taken back after a timed-out send can be given to a KeyUpdate, which the peer then
  acknowledges without reading it (`WithdrawalRun.WriterLeavesReaderBehind`); agreement holds exactly
  until a packet of a message taken back misleads the receiver (`Withdrawals.AgreementUnlessMisled`,
  `Withdrawals.MisledExactly`). Only writes that wait for a shared writer can time out so
  (`Callers.ErrorMeansUnsent`, `Callers.TimesOutAfterSending`).
- A path MTU search whose smallest probe is more than 21 bytes above its first size can ask for the same
  refused size for ever (`PathSearch.SearchGetsStuck`, `MtuSearch.SearchCanStall`); otherwise it is
  bounded (`MtuSearch.SearchIsBounded`).
- An acknowledged probe at or above the ceiling leaves entries below the floor (`MtuSearch.AckedKeeps`);
  that needs a connection ID that grows during the search (`PathSearch.GrowingIdBreaksTheOrder`,
  `MtuSearch.ProbeOrdered`).
- A second hello that still offers early data is refused (`Retry.StatelessRetry`).
- The cookie age check counts whole seconds, so a cookie can be refused in its last second
  (`CookieKeys.AgeCheck`, `CookieKeys.RefusedEarly`).
- Acknowledgements need five bytes more than fragments do (`Sizing.AcksFit`).
- A retry whose cookie does not fit an extension would carry none (`Retry.CookieTravels`); offers
  cannot be that large (`Retry.IdentitiesFit`).

## Model

| member | source | states |
|---|---|---|
| KeyUpdate.AcknowledgedFlightsArrived | internal/dtls13/flight.go:198-239 | In every run over a network that loses, repeats and reorders, with receivers evicted before they have keys and sends that fail although the packet went out: when all of a flight is acknowledged, each of its messages was delivered unchanged, or every byte of it is buffered unchanged, or it is in doubt; only plaintext is ever in doubt, and only after a forged acknowledgement or an eviction of a receiver holding part of it |
| Channel.AckSoundness | internal/dtls13/session.go:467-501 | From the delivery invariant: a fully acknowledged flight has every byte of every message that is not in doubt covered by the receiver |
| Channel.StepKeeps | internal/dtls13/session.go:467-539 | Every step of either endpoint or the network, evictions and unrecorded sends included, keeps the delivery invariant: only numbers of fully kept records are acknowledged, and only covered bytes count as acknowledged, but for messages in doubt |
| Channel.EvictKeeps | internal/dtls13/admission.go:27-53 | Evicting a receiver that has no keys keeps the delivery invariant, at the price of doubt about the plaintext it held |
| Channel.EvictionLosesExactly | internal/dtls13/admission.go:27-53 | An eviction takes back acknowledged bytes if and only if some byte it drops counts as acknowledged, or an acknowledgement of one is on its way |
| Channel.UnrecordedKeeps | internal/dtls13/session.go:275-293 | So does a retransmission that went out although its send was reported to have failed |
| EvictionRun.AcknowledgedAndLost | internal/dtls13/admission.go:27-53 | A concrete run in which a two-part ClientHello is acknowledged in full, every acknowledgement genuine, and no receiver holds it: the cache entry was evicted between the two acknowledgements |
| Channel.ReceiveLearns | internal/dtls13/session.go:467-501 | One honest record: nothing covered is lost, nothing is contradicted, and its number is queued only if all its fragments are covered |
| Channel.AckedPartCovered | internal/dtls13/flight.go:198-239 | A record number that the flight remembers and the receiver acknowledged proves that the bytes it carried arrived |
| KeyUpdate.KeyUpdateSafety | internal/dtls13/post_handshake.go:61-154 | In every run in which no message number is taken back after its packet went out: writer epoch <= reader epoch <= writer epoch + 1, the reader holds keys for both, and is ahead only while an update is under way |
| UpdateRun.BothEndsReachTheNextEpoch | internal/dtls13/post_handshake.go:61-154 | A concrete run of both ends, from the first keys through an announced, delivered, acknowledged and completed update to epoch 4 on both sides |
| KeyUpdate.StepFollows | internal/dtls13/post_handshake.go:76-154 | Every step keeps the reader's epoch equal to the one its delivered messages lead to, and the writer's no further than that |
| KeyUpdate.LocalFollows | internal/dtls13/post_handshake.go:76-121 | The writer installs new keys only after everything it numbered has been delivered |
| KeyUpdate.PostAccepted | internal/dtls13/post_handshake.go:174-202 | No KeyUpdate of an honest writer is refused |
| KeyUpdate.ProcessFollows | internal/dtls13/session.go:503-539 | Handling a stretch of the history moves the reader's epoch by exactly the updates in it |
| KeyUpdate.DeliveredIsPrefix | internal/dtls13/fragment.go:85-170 | In every run the delivered messages are a prefix of the numbered ones |
| Withdrawals.AgreementUnlessMisled | internal/dtls13/post_handshake.go:46-57 | With message numbers taken back and used again while their packet is on the network: as long as no such packet has left bytes with the receiver that are not the sender's, deliveries are a prefix of the sender's messages, acknowledged flights have arrived but for plaintext in doubt, and the reader has the writer's keys |
| Withdrawals.MisledExactly | internal/dtls13/fragment.go:105-155 | In every such state, opening a record of a message taken back keeps the receiver's buffers and deliveries the sender's own, if and only if the record is a slice of the message that now has the number, or that number is already delivered, or the record is dropped (or it ends the session) |
| Withdrawals.HarmlessHear | internal/dtls13/session.go:467-539 | A record that does not mislead keeps the delivery and key invariants |
| Withdrawals.WithdrawKeeps | internal/dtls13/post_handshake.go:46-57 | Taking a message back keeps them too: the record number stays spent, and no flight knows it |
| WithdrawalRun.WriterLeavesReaderBehind | internal/dtls13/post_handshake.go:30-59 | For any NewConnectionId message: a run in which its send is reported to have failed, the peer receives it, the next KeyUpdate gets its number, is acknowledged as old, and the writer moves to epoch 4, of which the reader opens nothing |
| Reassembly.DeliversHistoryInOrder | internal/dtls13/fragment.go:85-170 | For any arrival order with overlaps, duplicates and refused memory, popping yields the messages unchanged, once each and in sequence |
| Reassembly.AcceptedMessagesComeOut | internal/dtls13/fragment.go:85-170 | Once every byte of the first n messages was in some accepted record, in whatever order and over whatever run, all n are delivered |
| Reassembly.AcceptedStays | internal/dtls13/fragment.go:85-170 | What a record brought when it was accepted is buffered or delivered ever after |
| Reassembly.AddCarried | internal/dtls13/fragment.go:85-155 | An honest record is never rejected, destroys nothing, and is accepted only if all its fragments are then covered |
| Reassembly.ReadyWhenComplete | internal/dtls13/fragment.go:157-170 | The next message is delivered exactly when some fragment of it came and no byte is missing |
| Reassembly.PopExact | internal/dtls13/fragment.go:157-170 | What is popped is the next message of the history; the rest stays consistent with it |
| Reassembly.EncodedCarries | internal/dtls13/fragment.go:36-51 | A record holding an encoded fragment carries exactly that slice of that message |
| Reassembly.Limits | internal/dtls13/fragment.go:105-135 | At most 16 messages pending and at most 2 MiB buffered, for any input |
| Acceptance.AcceptedExactly | internal/dtls13/fragment.go:85-155 | For any record of one fragment from an honest sender: it is accepted if and only if the message was delivered, or it is among the next 16 and pending, or among them, granted by the budget, and the next one or within 1 MiB together with the later ones pending; its bytes are then kept, whatever its place in the order |
| Acceptance.InsertMeans | internal/dtls13/fragment.go:105-155 | For any fragment, honest or not: exactly when it is dropped, rejected (too long, or contradicting what is there) or accepted, and exactly which bytes are there afterwards |
| Acceptance.OpensWhenWelcome | internal/dtls13/fragment.go:115-138 | A slot is opened exactly under those conditions |
| Acceptance.EverythingIsDelivered | internal/dtls13/fragment.go:85-170 | Up to 16 messages of 1 MiB together, cut up in any way and arriving in any order with any repeats, are all delivered unchanged and in sequence where the budget allows |
| Acceptance.AheadOfTurn | internal/dtls13/fragment.go:85-170 | At any point of a run, a message that arrives ahead of the next one is kept, and is delivered right after it once that comes |
| Fragments.InsertKeeps | internal/dtls13/fragment.go:105-155 | For any fragment, honest or not: sizes, limits and buffered are exact, and the budget moves by exactly the change in fragment cost |
| Fragments.AddAllKeeps | internal/dtls13/fragment.go:85-103 | The same over all fragments of a record |
| Fragments.PopKeeps | internal/dtls13/fragment.go:157-170 | Popping gives back exactly the cost of the message |
| Fragments.EncodeParse | internal/dtls13/fragment.go:36-68 | Parsing an encoded fragment gives that slice and what followed it |
| Reassembly.Reassembler.constructor | internal/dtls13/fragment.go:76-81 | Starts empty at a given sequence |
| Reassembly.Reassembler.Add | internal/dtls13/fragment.go:85-103 | Object with bitmaps: same state, memory and verdict as the set-based description |
| Reassembly.Reassembler.Insert | internal/dtls13/fragment.go:105-155 | The same for one fragment |
| Reassembly.Reassembler.OpenSlot | internal/dtls13/fragment.go:115-138 | A message not yet begun gets a slot exactly when it is the next one, or with the later messages pending stays within 1 MiB, and the budget grants its cost; one already pending keeps its slot |
| Reassembly.Reassembler.Merge | internal/dtls13/fragment.go:139-155 | Bytes are added unless type, epoch, length or a byte contradicts |
| Reassembly.CopyBytes | internal/dtls13/fragment.go:142-154 | The byte loop over the bitmap, with remaining equal to the number of unseen bytes |
| Reassembly.Reassembler.Pop | internal/dtls13/fragment.go:157-170 | Pops exactly when ready and refunds the exact charge |
| Reassembly.Reassembler.Reset | internal/dtls13/fragment.go:196-202 | Refunds the whole charge and forgets every partial message |
| Budget.CounterIsWhatIsHeld | internal/dtls13/budget.go:10-29 | In any interleaving of compare-and-swap loops and releases the counter is exactly the sum of what the callers hold, and within [0, limit] |
| Budget.MemoryBudget.Reserve | internal/dtls13/budget.go:10-23 | Grants exactly when the size fits, and then counts it |
| Budget.MemoryBudget.Release | internal/dtls13/budget.go:25-29 | Gives the size back |
| Flights.FlightEnds | internal/dtls13/flight.go:90-267 | In any run of due timers, progressing and idle acknowledgements: an unfinished flight always has a deadline, its timer once due either times out or counts, and at most Rank + 1 counting steps are left before it is complete |
| Flights.StepAdvances | internal/dtls13/flight.go:90-267 | Every due timer step and every progressing acknowledgement moves the triple (owed, unsent, retries left) strictly down in lexicographic order |
| Flights.IdleKeeps | internal/dtls13/flight.go:198-239 | An acknowledgement that brings nothing new leaves what is owed, unsent and the timer as they were |
| FlightOutcomes.CompletesExactly | internal/dtls13/flight.go:198-239 | An acknowledgement completes a flight if and only if its records, with those acknowledged before, carried every byte of every message, in whichever transmission; unknown records count for nothing, nor do unauthenticated ones of protected epochs |
| FlightOutcomes.ProgressStartsOver | internal/dtls13/flight.go:198-239 | It makes progress, and starts the retries over, exactly when it settles a position that was open; the timer runs on |
| FlightOutcomes.AcknowledgedFlightsComplete | internal/dtls13/flight.go:90-239 | In any run of transmissions, timers and acknowledgements: once all has gone out, an authenticated acknowledgement of the records still waited for completes the flight; nothing sent is forgotten |
| FlightOutcomes.UnansweredFlight | internal/dtls13/flight.go:250-267 | Unanswered, a flight sends what is left burst by burst at no cost, repeats what is open at intervals that double up to a minute, and is ended by the timer after the eighth repetition and no other |
| Flights.NoteKeeps | internal/dtls13/flight.go:114-178 | Sending a part keeps acknowledged bytes a subset of sent ones and owes no more; a new part leaves less unsent |
| Flights.AckOneKeeps | internal/dtls13/flight.go:198-239 | Acknowledging one record keeps the flight valid and, on progress, owes strictly less |
| Flights.TransmittedKeeps | internal/dtls13/flight.go:90-112 | A transmission keeps the flight valid and never adds to what is owed or unsent |
| FlightSender.NewFlight | internal/dtls13/flight.go:54-78 | Refuses empty, too many or too large messages; otherwise starts with nothing sent or acknowledged |
| FlightSender.Flight.Transmit | internal/dtls13/flight.go:90-112 | At most ten records, each of eligible bytes; new bytes first, and at least one while any remain; the wire grows by exactly those packets |
| FlightSender.Flight.SendRanges | internal/dtls13/flight.go:114-178 | One pass: at most ten records, fewer only when nothing eligible was left out or a send failed |
| FlightSender.Flight.SendMessage | internal/dtls13/flight.go:118-175 | One message's share of a pass |
| FlightSender.Flight.SendRun | internal/dtls13/flight.go:118-175 | One run of eligible bytes goes out, or the message needs nothing more |
| FlightSender.Flight.SendPart | internal/dtls13/flight.go:132-166 | A part goes out under a number new to the flight, and is recorded under it |
| FlightSender.NextRange | internal/dtls13/flight.go:118-131 | Finds the first run of eligible bytes, as long as capacity allows |
| FlightSender.Flight.HasUnsent | internal/dtls13/flight.go:180-196 | True exactly when some byte or empty message was never sent |
| FlightSender.Flight.AcknowledgeRecord | internal/dtls13/flight.go:204-227 | Acknowledges what one record carried, once |
| FlightSender.AcknowledgeRun | internal/dtls13/flight.go:209-225 | Marks a run as acknowledged, and reports progress exactly when part of it was not |
| FlightSender.Flight.Acknowledge | internal/dtls13/flight.go:198-239 | All record numbers of an acknowledgement in turn; ends the flight exactly when nothing is left |
| FlightSender.Flight.Expire | internal/dtls13/flight.go:250-267 | Backs off when nothing new was owed, and times out after the last retry |
| Bitmap.MarkRun | internal/dtls13/flight.go:157-166 | Sets a run of bits and counts those that were clear |
| Outlets.Outlet.Send | internal/dtls13/session.go:172-203 | Numbers are taken in order, below the limit, never twice; an exhausted, oversize or unkeyed record takes none and changes nothing; a failed send spends exactly one |
| Sending.NumbersAndLiveEpochs | internal/dtls13/session.go:115-203 | In every run no record number is used twice, none reaches its epoch's limit, and every unfinished flight names only installed write epochs |
| Sending.InstalledOnce | internal/dtls13/session.go:115-150 | In every run the keys of epochs 2 and 3 are each installed at most once, by installation or by completing the handshake, also after they were dropped |
| Sending.StepKeeps | internal/dtls13/post_handshake.go:30-154 | Every event of the sending side keeps that |
| Sending.KeyChangesKeep | internal/dtls13/post_handshake.go:76-121 | Old write keys go only when no unfinished flight names them |
| Receiving.EpochBitsAreUnambiguous | internal/dtls13/session.go:410-461 | In every run, whatever the peer sends, retained read epochs are within {2, 3} and later {app - 1, app}; two bits pick at most one, and the current one is there |
| Receiving.ReceiveKeeps | internal/dtls13/session.go:467-539 | Handling a record keeps that, because buffered messages of an application epoch came in records that retired older epochs |
| Receiving.ReceivePostKeeps | internal/dtls13/post_handshake.go:174-202 | A KeyUpdate keeps at most the previous and the new epoch |
| Sessions.ReadState.Install | internal/dtls13/session.go:115-150 | Installs a read epoch once, with an empty replay window, and leaves the other windows alone |
| Sessions.ReadState.Select | internal/dtls13/session.go:420-429 | Finds the highest retained epoch agreeing with the record's two bits, or none |
| Sessions.ReadState.OpenRecord | internal/dtls13/session.go:410-461 | A record opens if and only if its connection ID fits and it decodes under the epoch its bits select and that epoch's window; only then do that window and older epochs change. An authentic record without a valid type ends the session with UnexpectedMessage and one too long with RecordOverflow; anything else that fails is dropped |
| Sessions.ReadState.Retire | internal/dtls13/session.go:449-456 | Forgets exactly the application epochs below the one that opened |
| Sessions.ReadState.ReceivePost | internal/dtls13/post_handshake.go:174-202 | Takes a message if and only if it is of the current application epoch and a KeyUpdate with body 0 or 1, a ticket, or one about connection IDs; a KeyUpdate installs the next epoch with an empty window; all other windows stay |
| Sessions.WriteState.constructor | internal/dtls13/session.go:102-113 | Starts in the initial state of the sending machine |
| Sessions.WriteState.CurrentWriteEpoch | internal/dtls13/session.go:152-158 | The highest write epoch is the machine's current one |
| Sessions.WriteState.Install | internal/dtls13/session.go:115-150 | Write keys of an epoch are installed once, as a step of the sending machine; a later call changes nothing, after completion too |
| Sessions.WriteState.CompleteHandshake | internal/dtls13/session.go:503-539 | Completing the handshake installs the application keys if need be and lets later flights start, as a step of the sending machine |
| Sessions.WriteState.StartFlight | internal/dtls13/session.go:221-235 | A handshake flight begins and takes its message numbers |
| Sessions.WriteState.FinishFlight | internal/dtls13/flight.go:198-248 | A flight is complete once every byte is acknowledged, or the handshake one is answered |
| Sessions.FirstPost | internal/dtls13/post_handshake.go:30-59 | From a new session through a completed handshake the first flight does start |
| Sessions.WriteState.StartPost | internal/dtls13/post_handshake.go:30-59 | Starts a flight if and only if the handshake is complete, no update and no flight of the type is in progress, numbers are left and the first part was sent, and then the new last message has that type, epoch and body; otherwise the message number is free again; either way a run of the sending machine |
| Sessions.WriteState.AdvancePost | internal/dtls13/post_handshake.go:76-154 | Is a run of the sending machine. The epoch moves by one exactly when an update is in progress and all its flights are complete. A pending update is announced exactly when nothing holds it back and its first part is sent: then an update is in progress, its flight is under way, nothing is pending any more, and the new last message is a KeyUpdate with body 1 if and only if the peer is to update and was not asked before. Without a pending update an answer about connection IDs and then a request go out, each exactly when its flight is free, numbers are left and its first part is sent |
| Sessions.WriteState.AdvanceMessages | internal/dtls13/post_handshake.go:122-154 | The message half of that |
| Sessions.WriteState.ExchangeIds | internal/dtls13/post_handshake.go:144-153 | Answer and request go out in that order, each exactly when no update is in progress, its flight is free, numbers are left and its first part is sent |
| Sessions.WriteState.SendIds | internal/dtls13/post_handshake.go:144-153 | Sends connection IDs, or asks for some, exactly when no update and no flight of that type is there; the new last message has that body |
| Sessions.WriteState.InstallNextKeys | internal/dtls13/post_handshake.go:101-116 | Replaces the write epoch by the next when every flight is acknowledged |
| Sessions.WriteState.ForgetComplete | internal/dtls13/post_handshake.go:117-121 | Drops exactly the complete flights, the handshake's apart |
| Sessions.WriteState.BeginKeyUpdate | internal/dtls13/post_handshake.go:122-143 | Announces the update exactly when epochs and numbers are left and its first part is sent; the body is 1 if and only if the peer is to update and was not asked before; flags change exactly when something was sent |
| Sessions.WriteState.RetireHandshakeKeys | internal/dtls13/post_handshake.go:76-100 | Only the current write epoch is left |
| Sessions.WriteState.RequestKeyUpdate | internal/dtls13/post_handshake.go:61-74 | Refused before completion; otherwise an update is pending or under way |
| Sessions.WriteState.PeerUpdated | internal/dtls13/post_handshake.go:197-201 | Clears the outstanding request and schedules an update if one was asked for |
| Records.RecordRoundTrip | internal/dtls13/record.go:54-236 | For every content, padding, connection ID and number within half a window of the expected one: what this side sends has its sequence bytes masked and all others clear, and parses and decodes to the record exactly if the replay window admits it, and otherwise to Replayed |
| Records.NumbersAreMasked | internal/dtls13/record.go:142-178 | On the wire the two sequence bytes are the number's low bytes exclusive-or the mask of the ciphertext; flags, connection ID and length are clear, and the rest is sealed under the clear header |
| Records.XorIsExclusiveOr | internal/dtls13/record.go:174-203 | Masking is exclusive or, bit by bit |
| Records.AnyFormRoundTrip | internal/dtls13/record.go:54-223 | The same for every form of header a peer may send, with one or two sequence bytes, with or without a length |
| Records.AuthenticIsJudged | internal/dtls13/record.go:186-223 | An authentic record around any plaintext is judged by it alone: too long, without a valid type, replayed, or its content |
| Records.DecodedIsGenuine | internal/dtls13/record.go:186-223 | With a cipher that opens only what it sealed: a record is accepted only if sealed with that content and type under that number and header, for an epoch agreeing with its bits, and new to the window |
| Records.ReconstructCongruent | internal/dtls13/record.go:225-236 | The reconstructed number always has the low bytes that were sent |
| Records.ReconstructExact | internal/dtls13/record.go:225-236 | The low one or two bytes determine the number within half a window of the expected one, also near 0 and 2^64 - 1 |
| Records.EncodeParse | internal/dtls13/record.go:54-178 | Parsing an encoded record finds its header, body and the rest of the datagram |
| Records.DecodeSighted | internal/dtls13/record.go:186-223 | Decoding undoes masking, sealing and padding |
| Records.PlainRoundTrip | internal/dtls13/record.go:96-140 | The same for plaintext records, which begin with their type and version 0xfefd |
| Records.EncodedLength | internal/dtls13/record.go:142-178 | Length of a protected record |
| Records.TrimPadded | internal/dtls13/record.go:212-216 | Padding is removed exactly |
| Records.FindContentEnd | internal/dtls13/record.go:212-216 | The backward scan finds the last byte that is not zero |
| Replay.WindowRefinesSet | internal/dtls13/record.go:239-270 | For any sequence of calls, each is accepted exactly when new and either above the highest accepted or less than 64 below it |
| Replay.AcceptRefines | internal/dtls13/record.go:254-270 | One call accepts exactly that, and then stands for one number more |
| Replay.ExpectedFollows | internal/dtls13/record.go:244-270 | A new window expects 0; accepting a number at or past the expected one makes its successor the next, as far as there is one, and nothing else moves it |
| Replay.ReplayWindow.Admit | internal/dtls13/record.go:254-270 | Says yes exactly to a number never accepted before and not 64 or more below the highest; the set of accepted numbers grows by exactly that, and the expected number follows |
| MtuSearch.SearchFindsThePath | internal/dtls13/pmtu_search.go:14-109 | For probes of the size asked for, raised to a smallest probe size, on a path carrying exactly the sizes up to P with at most two spurious losses: the entries stay in order, and a search that narrows ends within 20 of min(P, ceiling - 1), on its first size or one that got through |
| MtuSearch.SearchKeeps | internal/dtls13/pmtu_search.go:69-109 | Every probe of such a search keeps the largest size that works inside the interval |
| MtuSearch.NextSizeInside | internal/dtls13/pmtu_search.go:43-67 | While not done, the next size lies strictly between floor and ceiling, halfway from the floor to the ceiling or, after a loss, to the smallest size lost; done exactly when it is 0 |
| MtuSearch.AckedKeeps | internal/dtls13/pmtu_search.go:69-91 | Entries stay sorted and above the floor after an acknowledgement if and only if its size was below the ceiling, or no larger than the least entry |
| MtuSearch.ProbeOrdered | internal/dtls13/pmtu_discover.go:195-235 | Every outcome keeps the entries in order as long as the smallest probe is no larger than the least entry, as it stays while the connection ID keeps its length |
| MtuSearch.LostKeeps | internal/dtls13/pmtu_search.go:93-103 | Entries stay sorted after a loss and the ceiling does not rise |
| MtuSearch.RejectKeeps | internal/dtls13/pmtu_search.go:105-109 | A hard rejection lowers the ceiling to the size exactly when the size is below it |
| MtuSearch.ProbeProgress | internal/dtls13/pmtu_discover.go:195-235 | Every outcome lowers probes left plus interval width, if and only if it is not a refusal at or above the ceiling |
| MtuSearch.StalledExactly | internal/dtls13/pmtu_discover.go:195-221 | A refused probe leaves the search where it was if and only if the smallest probe is no smaller than the ceiling |
| MtuSearch.SearchIsBounded | internal/dtls13/pmtu_search.go:14-109 | A search whose smallest probe is at most 21 above its first size makes at most 24 + ceiling - first size probes, refused ones included |
| MtuSearch.SearchCanStall | internal/dtls13/pmtu_discover.go:195-221 | For every larger smallest probe up to the ceiling, refusals lead to a state in which a search stalls |
| PathSearch.SessionFindsThePath | internal/dtls13/pmtu_discover.go:73-235 | The same for the session: from the start of a search to its end, with any timing of sends, answers and timeouts, the working size ends within 20 of what path and endpoint allow, and never above what the path carries |
| PathSearch.SessionSearchIsBounded | internal/dtls13/pmtu_discover.go:144-235 | And with at most that many probes |
| PathSearch.StepMoves | internal/dtls13/pmtu_discover.go:94-235 | Every step of a session in search is exactly one step of the interval search, or none |
| PathSearch.NoRoomToSearch | internal/dtls13/pmtu_discover.go:195-206 | When the smallest probe exceeds the ceiling nothing is probed and nothing changes |
| PathSearch.SearchGetsStuck | internal/dtls13/pmtu_discover.go:144-235 | A concrete run of a session, with a 255-byte connection ID and a configured size of 316, into a search that lost 286 bytes three times |
| PathSearch.StuckForever | internal/dtls13/pmtu_discover.go:195-221 | From there it asks for 286 bytes again however often that is refused |
| PathSearch.GrowingIdBreaksTheOrder | internal/dtls13/pmtu_discover.go:195-235 | A concrete run in which the connection ID grows during a search and an answered probe leaves lost sizes below the floor |
| MtuSearch.MtuFinder.constructor | internal/dtls13/pmtu_search.go:14-29 | The interval runs from the first size to the ceiling |
| MtuSearch.MtuFinder.FindCeiling | internal/dtls13/pmtu_search.go:31-41 | The highest entry present, or the floor |
| MtuSearch.MtuFinder.Acked | internal/dtls13/pmtu_search.go:69-91 | Shifts the array in place as described |
| MtuSearch.MtuFinder.Missed | internal/dtls13/pmtu_search.go:93-103 | Inserts into the array in place as described |
| MtuSearch.MtuFinder.Rejected | internal/dtls13/pmtu_search.go:105-109 | Three losses of the same size |
| Sizing.FragmentsFit | internal/dtls13/session.go:205-219 | Every fragment within the budget fits the datagram size if and only if that is at least the connection ID length + 35 |
| Sizing.AcksFit | internal/dtls13/session.go:587-613 | Acknowledgements within the limit fit; the limit admits one exactly from the connection ID length + 40 on |
| Sizing.ApplicationWritesFit | internal/dtls13/conn.go:676-686 | A write encodes to at most the working size exactly when it is within the published maximum and the overhead fits |
| Sizing.ProbesAreExact | internal/dtls13/pmtu.go:81-95 | A probe of a requested size is a datagram of exactly that size |
| Sizing.WireLength | internal/dtls13/session.go:172-203 | Length of a record of any epoch |
| Discovery.WorkingSizeIsEarned | internal/dtls13/pmtu_probe.go:94-123 | In every run the effective size stays within [256, configured] and grows if and only if the outstanding, larger probe of the current generation is answered, to exactly its size |
| Discovery.StepKeeps | internal/dtls13/pmtu_discover.go:45-235 | Every event keeps that |
| Discovery.ReduceShrinks | internal/dtls13/pmtu.go:119-139 | A reduction that happens is strict and stays in range |
| Discovery.AckedGrows | internal/dtls13/pmtu_discover.go:94-116 | An answered probe makes the size the larger of the two |
| Discovery.LostMoves | internal/dtls13/pmtu_discover.go:118-142 | The same with the phase that follows every other loss: counted, watched, or narrowing the search |
| Discovery.AckedMoves | internal/dtls13/pmtu_discover.go:94-116 | An answered confirmation leads to a search exactly when one is to follow and a larger size is left to ask for, and otherwise settles; an answered search goes on until it is done |
| Discovery.TimerAsks | internal/dtls13/pmtu_discover.go:144-235 | Which probe, of which kind and size, a timer sends in each phase, and when it sends none |
| Discovery.SilenceShrinks | internal/dtls13/pmtu_discover.go:118-193 | Three confirmations in a row without an answer bring the size down while a reduction is left |
| Discovery.PathMtu.ReduceHandshakeMtu | internal/dtls13/pmtu.go:119-139 | Succeeds if and only if the size is above 256 and fewer than eight reductions were made; then the size is at least 256, smaller than before, at most half of it (or 256), and below the size that was too big |
| Discovery.PathMtu.SetWorkingMtu | internal/dtls13/pmtu.go:141-155 | The size becomes the larger of itself and the one given, within the configured one; growth restores the reductions |
| Discovery.PathMtu.RestartConfirm | internal/dtls13/pmtu_discover.go:45-60 | The size stays, no probe is out, and those sent before are of an older generation |
| Discovery.PathMtu.StartSearch | internal/dtls13/pmtu_discover.go:73-83 | The search starts from the working size and is under way exactly when the first size it asks for lies strictly between that and the configured size; the size stays |
| Discovery.PathMtu.Settle | internal/dtls13/pmtu_discover.go:85-92 | Both timers lie in the future; size and outstanding probe stay |
| Discovery.PathMtu.OnProbeAcked | internal/dtls13/pmtu_discover.go:94-116 | The size becomes the larger of itself and the probe's |
| Discovery.PathMtu.OnProbeLost | internal/dtls13/pmtu_discover.go:118-142 | The size shrinks if and only if a confirmation was refused or lost for the third time and a reduction is left; to half, or below what was too big, and that is confirmed and searched from next |
| Discovery.PathMtu.TickSearch | internal/dtls13/pmtu_discover.go:144-193 | The size never grows; a probe goes out only if none is, of a size that encodes and the endpoint allows, under the current generation, path and a 16 s deadline |
| Discovery.PathMtu.SendDiscoveryProbe | internal/dtls13/pmtu_discover.go:195-235 | The same for one probe, of at least the size wanted; a search probe is larger than the floor; only a probe that left is outstanding |
| Discovery.PathMtu.ReceiveReply | internal/dtls13/pmtu_probe.go:94-123 | The size grows if and only if the outstanding, larger probe is answered, to its size; a reply of another generation, cookie, path or time changes nothing |
| Discovery.PathMtu.TickProbe | internal/dtls13/pmtu_probe.go:125-132 | Nothing happens while a probe is out and in time; the size never grows; a new probe has the current generation and a 16 s deadline |
| Discovery.TickPutsOut | internal/dtls13/pmtu_discover.go:144-193 | Every timer step puts out at most one probe, under those conditions |
| Discovery.BeginSearches | internal/dtls13/pmtu_discover.go:73-83 | A search begins exactly when there is a larger size to ask for |
| Path.AmplificationIsBounded | internal/dtls13/path.go:60-190 | In every run, for every address but the peer: bytes sent since it was last the peer, plus credit held for it, are at most three times the authenticated bytes from it |
| Path.OnlyValidatedPeers | internal/dtls13/path.go:109-156 | The peer changes if and only if the candidate itself returns its cookie before the deadline, and then to the candidate and its connection ID |
| Path.ChallengeIsAnswered | internal/dtls13/path.go:109-156 | A challenge is answered if and only if the packet goes out and its sender is the peer, or the candidate with the credit for it, or has paid for it; the answer returns the cookie, as a response on the path's own socket and as a drop on another |
| Path.ValidationStarts | internal/dtls13/path.go:60-95 | Exactly when a record starts a validation, that it challenges the old path first, and what credit the candidate has |
| Path.TimerMoves | internal/dtls13/path.go:181-190 | What a due timer does in each phase |
| Path.AnswerMoves | internal/dtls13/path.go:126-156 | What each answer to the outstanding challenge does, and that any other changes nothing |
| Path.MalformedMessages | internal/dtls13/path.go:109-125 | Exactly which messages are errors and which are ignored |
| Path.CandidateIsChallenged | internal/dtls13/path.go:97-107 | The candidate's challenge has a fresh cookie and the first spare connection ID, or else the one in use, and goes out exactly when the candidate's credit covers it |
| Path.GoneChallenges | internal/dtls13/path.go:126-190 | A drop from the old path, or its silence, leads to that challenge |
| Path.MovedPeerIsFollowed | internal/dtls13/path.go:60-190 | A peer that has moved is followed: its newest record from elsewhere, an old path that is gone, and its answer in time make that address the peer's |
| Path.SparesJoin | internal/dtls13/connection_id.go:188-192 | Spare IDs stay, and new ones join in order, each once, none in use, up to eight; one left out was known or met a full list |
| Path.NewCidsAreAdopted | internal/dtls13/connection_id.go:180-194 | An immediate list replaces the ID in use, the spares and the one set aside for a candidate; any other only adds spares |
| Path.SendPays | internal/dtls13/path.go:158-179 | A message beyond the peer is paid from the candidate's credit or its own, or is dropped |
| Path.ObservePays | internal/dtls13/path.go:60-80 | Credit grows by at most three times the record |
| Path.ReceivePays | internal/dtls13/path.go:109-156 | A validation message spends at most credit held and earned |
| Path.PathState.ObserveRecord | internal/dtls13/path.go:60-80 | A validation starts exactly when none is under way and the newest record, of an application epoch and not itself a validation message, comes from another address that is allowed; the old path is then sent a challenge. A record earns at most three times its size for the address it came from; the newest record number never goes back |
| Path.PathState.SendChallenge | internal/dtls13/path.go:82-95 | No address but the peer is sent more than its credit; the awaited cookie is the fresh one |
| Path.PathState.ChallengeCandidate | internal/dtls13/path.go:97-107 | The same; the candidate gets the first spare connection ID, and only then loses it from the spares |
| Path.PathState.ReceiveMessage | internal/dtls13/path.go:109-156 | A challenge is answered exactly when the packet goes out and its sender is the peer or has paid for it, with its own cookie, as a response on the path's own socket and a drop on another; a drop about the old path challenges the candidate; the peer changes only to the sender of the awaited answer, in time |
| Path.PathState.Send | internal/dtls13/path.go:158-179 | Bytes beyond the peer are paid out of the candidate's credit or the credit given, or nothing is sent |
| Path.PathState.Expire | internal/dtls13/path.go:181-190 | When the old path is silent the candidate is challenged, and when the candidate is, the validation ends; the peer stays, and every other address has been sent, with its credit, at most three times what it sent |
| Path.PathState.Take | internal/dtls13/session.go:340-400 | One arriving record: the same bound holds afterwards for every address but the peer, whose account the ledger keeps, and the peer changes if and only if the candidate confirms |
| Admission.CacheIsAccounted | internal/dtls13/admission.go:27-203 | In every run: used equals the sum of entry, reply and fragment costs and is within [0, limit]; at most 64 entries; bytes queued to a peer at most three times bytes from it |
| Admission.EvictMakesRoom | internal/dtls13/admission.go:35-53 | Making room keeps the entry to keep, evicts none before an older one, succeeds exactly when room is then there, and fails only when nothing else is left or the cost exceeds the limit |
| Admission.RoomExactly | internal/dtls13/admission.go:35-53 | Room can be made exactly when the cost fits the limit beside the entry that must stay, whatever the other peers hold |
| Admission.StepKeeps | internal/dtls13/admission.go:73-203 | Every event keeps accounts and credit |
| Admission.HelloCache.HelloRoom | internal/dtls13/admission.go:35-53 | The loop ends, does what EvictMakesRoom says, and succeeds exactly when the cost fits the limit beside the entry to keep |
| Admission.HelloCache.FindOldest | internal/dtls13/admission.go:40-46 | Finds an oldest entry other than the one to keep, if there is one |
| Admission.HelloCache.RemoveHello | internal/dtls13/admission.go:27-33 | Gives back everything the entry holds |
| Admission.HelloCache.SendHello | internal/dtls13/admission.go:73-89 | A packet is queued, and paid for, exactly when the credit covers it and the queue takes it; too many records are an error |
| Admission.HelloCache.AddHello | internal/dtls13/admission.go:91-140 | A new peer gets an entry exactly when the limit allows one at all, whatever others hold |
| Admission.HelloCache.ScreenFragment | internal/dtls13/admission.go:167-183 | The same for one fragment |
| Admission.HelloCache.ChargeReply | internal/dtls13/admission.go:117-123 | The entry stays, and is charged for the reply exactly when that fits the limit beside it |
| Admission.HelloCache.ScreenRecord | internal/dtls13/admission.go:165-184 | Passes if and only if it holds nothing but fragments of first or second ClientHellos and the limit allows the entry and each message not yet begun |
| Admission.HelloCache.Screen | internal/dtls13/admission.go:143-190 | A datagram passes if and only if it holds nothing but plaintext acknowledgements and such fragments, its sender is known or begins a hello, and the limit allows that; never for what other peers hold. Its sender is then credited with three times its size, up to three times the longest ClientHello |
| ConnectionIds.IndexAgrees | internal/dtls13/listener.go:146-166 | In every interleaving of sessions issuing, rotating, failing, rolling back and leaving: an ID leads to a connection if and only if that connection accepts it; IDs are distinct and at most 8, 9 during a rotation |
| ConnectionIds.StepKeeps | internal/dtls13/connection_id.go:58-125 | Every step keeps that |
| ConnectionIds.RollbackSucceeds | internal/dtls13/connection_id.go:108-121 | On an open listener, undoing an unsent issue restores the previous pool |
| ConnectionIds.IssueExactly | internal/dtls13/connection_id.go:98-107 | New IDs are taken on if and only if the listener is open and no other connection has one of them; each then leads here, and otherwise nothing changes |
| ConnectionIds.UseExactly | internal/dtls13/connection_id.go:23-35 | The first record under a rotated ID leaves it the only one in pool and index, unless the listener has closed |
| ConnectionIds.RequestIsAnswered | internal/dtls13/connection_id.go:58-84 | A pending request is answered as soon as nothing else is under way: with as many spares as fit, or from a full pool with one ID that replaces the rest; only the latter leaves it standing |
| ConnectionIds.RequestWaits | internal/dtls13/connection_id.go:58-60 | Until then nothing is issued |
| ConnectionIds.ClaimKeeps | internal/dtls13/listener.go:146-166 | Setting one connection's IDs leaves the others' alone |
| ConnectionIds.Listener.Assign | internal/dtls13/listener.go:146-166 | Sets exactly these IDs, or changes nothing on collision or closure |
| ConnectionIds.Listener.DeleteOwned | internal/dtls13/listener.go:157-161 | Deletes exactly the connection's entries |
| ConnectionIds.CidPool.UsedLocal | internal/dtls13/connection_id.go:23-35 | First use of a rotated ID retires the others in pool and index |
| ConnectionIds.CidPool.Provide | internal/dtls13/connection_id.go:73-125 | Issues as many new IDs as asked for and fit, in pool and index, or leaves both as they were; succeeds exactly when enough new IDs were drawn, the index takes them and the message was queued |
| ConnectionIds.CidPool.Announce | internal/dtls13/connection_id.go:98-125 | Succeeds exactly when the index takes the IDs and the message was queued; takes them back from both if it was not |
| ConnectionIds.Generate | internal/dtls13/connection_id.go:88-97 | Drawn IDs are new to the pool and distinct; fails only when there are too few such among the draws |
| ConnectionIds.IdsRoundTrip | internal/dtls13/connection_id.go:127-169 | The peer reads back the first eight different IDs and the usage |
| ConnectionIds.IdsAreWritable | internal/dtls13/connection_id.go:127-147 | What a pool can hold can be sent, except an immediate list without an ID |
| Retry.StatelessRetry | internal/dtls13/cookie.go:184-250 | For every exchange: the second hello of a cookie within its age limit is accepted, under whatever keys rotated meanwhile, if and only if the first offered no early data; the rebuilt HelloRetryRequest is then the one sent, and server and client transcripts are equal, spelling a message hash of the first hello, then the retry, then the second hello |
| Retry.TranscriptSpells | internal/dtls13/schedule.go:106-130 | The transcript reads back as message type 254 with the hash of the first hello, then the retry, then the second hello, and nothing else |
| Retry.SameTranscriptSameExchange | internal/dtls13/schedule.go:106-130 | Two exchanges with the same transcript have the same retry, the same second hello and the same hash of the first |
| Retry.RetryIsFollowed | internal/dtls13/cookie.go:127-182 | A retry names the server's foremost common suite and group, asks for a share exactly when none was sent for that group, and is one the client follows |
| RetryIssue.IssuedExactly | internal/dtls13/cookie.go:127-182 | A hello that can be read is answered if and only if a suite and a group are common, the foremost such suite is known, and the clock is one a cookie can hold; whatever its other extensions, the cookie and the retry fit |
| Retry.VerifiedIsRetry | internal/dtls13/cookie.go:184-250 | Conversely, where their hashes do not collide, a hello is accepted under a cookie only if it equals the hello the cookie was issued for up to cookie, padding, requested share and identities left out, in time and without early data |
| Retry.AcceptedExactly | internal/dtls13/cookie.go:184-250 | Where hashes do not collide: a hello with an issued cookie is accepted if and only if it is the second message, short enough, in time, without early data, equal to the first but for cookie, padding, early data, a requested share and identities left out, and brings a share for the group |
| RetryRun.RetryHappens | internal/dtls13/cookie.go:127-182 | A concrete exchange meets all premises |
| Retry.SameFingerprint | internal/dtls13/cookie.go:77-91 | Equal fingerprints mean equal hellos up to the extensions that may change |
| Retry.CookieRoundTrip | internal/dtls13/cookie.go:163-178 | The cookie reads back as what was put in |
| Retry.OpensSealed | internal/dtls13/cookie.go:201-221 | A cookie opens under its key, current or previous, to what was sealed |
| Retry.CookieTravels | internal/dtls13/handshake_server.go:71-81 | The client finds exactly the cookie in the retry if and only if it is shorter than 2^16 |
| Retry.IdentitiesFit | internal/dtls13/offer.go:94-126 | A valid offer has at most 1638 identities, so the cookie always fits |
| Retry.SecondHello | internal/dtls13/handshake_client.go:315-383 | A client changes only the cookie, and the key share if asked |
| Retry.RetriedMatches | internal/dtls13/cookie.go:222-233 | Such a second hello passes every check of the cookie |
| Identities.GreedyDecides | internal/dtls13/cookie.go:108-125 | Greedy matching holds if and only if one list is a subsequence of the other |
| Identities.IdentitySubset | internal/dtls13/cookie.go:108-125 | The nested loops decide exactly that |
| Identities.FewIdentities | internal/dtls13/offer.go:94-126 | Bound from the 32-byte binder each identity needs |
| CookieKeys.KeyOutlivesCookie | internal/dtls13/cookie.go:38-57 | For any ticks of a monotone clock, the key of a cookie younger than 60 s is current or previous |
| CookieKeys.KeyCanGo | internal/dtls13/cookie.go:38-57 | At 60 s it can be gone |
| CookieKeys.AgeCheck | internal/dtls13/cookie.go:215-221 | The age check, in whole seconds, accepts exactly ages below 60 s less the part of a second at issue |
| CookieKeys.RefusedEarly | internal/dtls13/cookie.go:215-221 | A cookie of 59.001 s that is refused |
| CookieKeys.CookieSecrets.constructor | internal/dtls13/cookie.go:23-30 | Both keys are the first |
| CookieKeys.CookieSecrets.Rotate | internal/dtls13/cookie.go:38-42 | Only the key before the replaced one is lost, and after a lifetime no key still in use is |
| CookieKeys.CookieSecrets.Tick | internal/dtls13/cookie.go:44-57 | Whenever it runs, every key that sealed a cookie less than 60 s ago is still held |
| CookieKeys.CookieSecrets.Seal | internal/dtls13/cookie.go:179-179 | A cookie is sealed with a key that is held, and its use is on record |
| Hello.ClientRoundTrip | internal/dtls13/hello.go:97-149 | Every ClientHello that marshals parses back to itself |
| Hello.ServerRoundTrip | internal/dtls13/hello.go:158-197 | Every ServerHello that marshals parses back to itself |
| HelloForms.ClientExactly | internal/dtls13/hello.go:97-123 | A byte string is accepted as a ClientHello if and only if it is laid out as one, with no byte to spare, and means what it lays out |
| HelloForms.ServerExactly | internal/dtls13/hello.go:158-179 | The same of a ServerHello |
| HelloForms.ExtensionsExactly | internal/dtls13/hello.go:48-63 | The same of extensions: each once, and nothing after pre_shared_key in a ClientHello |
| HelloForms.Layout | internal/dtls13/hello.go:97-149 | That layout in bytes: version 0xfefd, an empty legacy cookie and one null compression method |
| HelloForms.ClientWritable | internal/dtls13/hello.go:125-149 | A ClientHello can be written if and only if some byte string is read as it |
| HelloForms.ServerWritable | internal/dtls13/hello.go:181-197 | The same of a ServerHello |
| Hello.ExtensionsRoundTrip | internal/dtls13/hello.go:48-88 | Every extension map that marshals parses back to itself |
| Hello.OrderCovers | internal/dtls13/hello.go:65-76 | Extensions are written once each, ascending, with pre_shared_key last |
| Hello.AcceptedOnce | internal/dtls13/hello.go:48-63 | Whatever is accepted names each extension once, and nothing follows pre_shared_key in a ClientHello |
| Hello.ReadExtensions | internal/dtls13/hello.go:48-63 | The parsing loop computes that |
| Acks.AckRoundTrip | internal/dtls13/ack.go:23-51 | Parsing an encoded acknowledgement gives the sorted duplicate-free list; encoding succeeds exactly up to 1023 numbers |
| Acks.SortAscends | internal/dtls13/ack.go:13-29 | Sorting keeps the set of numbers, by epoch and then sequence number, without repeats |
| Acks.OnlyAscending | internal/dtls13/ack.go:13-29 | That list is the only one |
| Acks.ParseAck | internal/dtls13/ack.go:42-51 | The parsing loop |
| Acks.AckQueue.Write | internal/dtls13/session.go:587-613 | Splits the queue into chunks that each fit the path, none but the last with room for one more; nothing is lost, repeated or reordered; it ends when all is sent or at the first send that fails, and what was not sent stays queued; overflow exactly below connection ID length + 40 |
| Transport.CancellationIsIsolated | internal/dtls13/transport.go:140-196 | In every interleaving, a write on the wire has its own deadline unless one of its own signals was closed, and had no signal closed when it took the lock |
| Transport.CancellationReaches | internal/dtls13/transport.go:186-196 | Cancelling cuts the deadline of the write under way exactly if the signal is one of its own |
| Transport.StepKeeps | internal/dtls13/transport.go:140-196 | Every step of writer and cancellers keeps the lock invariant |
| Transport.PacketTransport.StartWrite | internal/dtls13/transport.go:140-162 | Arms the write exactly if it is neither stopped nor late, as a run of the machine, whatever the other goroutines do; otherwise deadline and signals stay |
| Transport.PacketTransport.FinishWrite | internal/dtls13/transport.go:164-171 | Clears the signals, as a run of the machine from any state after a write |
| Transport.PacketTransport.CancelWrite | internal/dtls13/transport.go:186-196 | Closes the signal and forces the deadline only of its own write, as a run of the machine |
| Callers.ErrorMeansUnsent | internal/dtls13/transport.go:206-265 | In every interleaving of callers, writer and cancellers: success means the packet went out; an error means it did not, unless the caller stopped waiting, at the deadline of a write that is not retried, or because the session or the transport was shut down |
| Callers.DirectErrorsAreFinal | internal/dtls13/transport.go:212-215 | On a direct transport the result is ok if and only if the packet went out |
| Callers.TimesOutAfterSending | internal/dtls13/transport.go:252-265 | Every write that is not retried has a run in which it times out after its packet went out |
| Callers.StopsAfterSending | internal/dtls13/transport.go:252-265 | Every write has a run in which it fails by shutdown after its packet went out |
| Callers.StepKeeps | internal/dtls13/transport.go:129-265 | Every step keeps each write in exactly one place, and every answer true to it |
| Wire.ReadsVector8 | internal/dtls13/wire.go:47-82 | Reading back a written vector leaves exactly the rest |
| Wire.ReadsVector16 | internal/dtls13/wire.go:48-92 | The same with a two-byte length |
| Wire.ReadsVector24 | internal/dtls13/wire.go:49-101 | The same with a three-byte length |

## Left out

- Cryptography and certificates (keys.go, protection.go, groups.go, signature.go, certificate.go, verify.go): parameters with laws.
- The handshake state machines of handshake_client.go and handshake_server.go, apart from the retry and its transcript: they enter the channel as guards.
- conn.go goroutines, deadlines and user-facing reads and writes, apart from the datagram budget: scheduling around the session.
- Round-trip-time sampling and the burst timer in flight.go, session.go and rtt.go: they set intervals, and every interval is allowed.
- The retry of a transmission with a smaller size after a too-long error (session.go:275-293): it reduces the size and transmits again, both modelled.
- disrupted and prefixLength (fragment.go:172-192) and the acknowledgement timers: they decide when to acknowledge; the model allows any time.
- Replay windows in Channel: records may arrive any number of times, which is more than the windows let through.
- The count of authentication failures per read epoch (session.go:432-440): ends a session, which the model allows at any time.
- usedLocalCID inside openRecord: modelled with the pools in ConnectionIds, not in Sessions.ReadState.
- The connection ID pools behind the last part of advancePost (post_handshake.go:144-153): Sessions takes the messages as arguments, the pools are in ConnectionIds.
- Demultiplexing without connection IDs, establish and peerChanged (listener.go:61-144, 168-177): maps by address with no rollback.
- The session inside a cached hello: its records, replies and sends are events of Admission, in any order; entries hold reassembly as a value, the object form is Reassembly.Reassembler.
- Admission into a connection after verification (admission.go:205-234): only its index entry is modelled, as ConnectionIds.Admit.
- Failure of the random generator in challenges, cookies and connection IDs: a run simply does not take that step.
- parseClientOffer, apart from groups, shares, cookie, pre-shared keys and early data (offer.go:17-92): its other checks are one arbitrary predicate.
- The wire reader is a value with a sticky failure rather than an object; the writer is concatenation.
- PathMtu.lastSendSize: an argument of the events that use it.
- Sizes are unbounded integers; the source's 64-bit arithmetic does not wrap for datagrams below 2^16 bytes.
- Platform files, socket options and everything outside internal/dtls13.
- Short datagram writes: a socket write sends the whole datagram or fails.
- KeyUpdate.KeyUpdateSafety: its runs take no message number back after the packet went out; Withdrawals has those runs, and the exact condition.
- Discovery.PathMtu.SendDiscoveryProbe: takes the socket's answer as an argument instead of calling a session.
- Transport.PacketTransport.StartWrite: models the critical section under the lock; waiting for the lock is in the machine.
