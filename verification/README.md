# Verified model of the BitTorrent client

This project models the download engine of the client and the parsers beside it, and proves what
the design relies on. `dafny verify dfyconfig.toml` checks everything.

## What is modelled

**Piece picker.** `Picker.dfy` says what picking means on plain sets: a set of owned pieces, a cursor
that goes round the missing ones, and a low-water mark. `Bitfield.dfy` is the packed bit vector as a
class, each of whose methods is proved to be that picker; `Bits.dfy` has the bit-level facts.
Fairness is proved for any interleaving of picks and completions.

**Seed downloader.** `DownloadSpec.dfy` describes one downloader as a value together with the units
of work that `handle_msg` is made of. `DownloadProofs.dfy` and `WindowProofs.dfy` prove what each of
them keeps: block accounting, reassembly, and, before the first choke, the request window.
`CounterProofs.dfy` says what becomes of the window and of the 8-bit counter after chokes.
`DownloadSteps.dfy` adds the shared picker and the effect of one message; `MessageOutcomes.dfy` says
how each message ends, and `RequestTheorems.dfy` what exactly is requested. `SeedDownloader.dfy` is
the class that does the work in place, with the assertions of the program as assertions.

**Whole download.** `Swarm.dfy` is a state machine of any number of downloaders that share the
bitfield under a lock and a channel of capacity 5, plus the loop that splices pieces into the file
(`FileDownload.dfy` is that loop in place). A step ends wherever the program waits for the lock, the
channel or a message, and between picking a piece and entering it into the table. The waits for
single requests to be written, while a downloader goes over its own tables, are not steps: nothing
that others see changes there. The lock is held from recording a piece until its send is done. Lock
and channel are first come, first served: there is a line for the lock, and the queue of messages
goes on, behind the five in the channel, with those whose senders wait.
`NodeProofs.dfy`, `SwarmProofs.dfy` and `RoundProofs.dfy` prove the invariants, `SwarmTheorems.dfy`
states what follows for every run. `SwarmSchedules.dfy` shows that the in-place code is one of the
schedules; `SwarmSteps.dfy` and `QuietSteps.dfy` have the moves from which runs are put together.

- `LockLine.dfy` and `LockTheorems.dfy`: when lock and channel block each other; `Draining.dfy`: what
  happens otherwise.
- `CompletionTheorems.dfy`: a download with one good peer left can still be completed.
  `EndTheorems.dfy`: the last piece, and downloads that own everything. `FailTheorems.dfy`: when a
  downloader leaves, and when the download fails.
- `CounterTheorems.dfy`, `OneChoke.dfy`, `OneChokeRuns.dfy`: the overflow of the counter of requests.
- `RepeatedPicks.dfy`: what it means that a pending piece is picked again.
- `SwarmExamples.dfy`: concrete runs.

**Geometry and files.** `MetaInfo.dfy` proves that the pieces tile the content exactly, and that
splicing them in any order rebuilds it; `FileWriter.dfy` is the split into files, and
`WholeDownload.dfy` what is on disk in the end.

**Peer messages.** `PeerMessages.dfy` is the codec over a mutable buffer, `Framing.dfy` the round trip
and the independence from how the stream is cut into chunks. `WireFormat.dfy` spells every message
out in bytes.

**Bencoding.** `Bencode.dfy` defines the grammar of BEP 3, section "bencoding", as concrete syntax
trees with a meaning. Both decoders (`BencodeNom.dfy`, `BencodePlain.dfy`) are proved to accept
exactly that grammar, the hand-written one without empty lists and dictionaries. Agreement, locality
and round trips follow in `BencodeTheorems.dfy`. `BencodeTexts.dfy` has the delimiters and numbers
in plain characters, and `PlainFailures.dfy` exactly when the hand-written decoder fails or panics.

## Where the code does not do what it is meant to

Each of these is proved, and where a claim fails the exact condition is too:

- Recording the last missing piece reads one bit past the vector, and panics, if and only if the
  number of pieces is a multiple of 8 (`Bitfields.Bitfield.Set`). In the swarm, once all pieces of
  such a torrent are owned, one completion has always panicked (`SwarmTheorems.LastPieceIsLostIff`).
- The download returns as soon as every piece is *owned*, which happens before the hash check and
  before the piece is received. The file is whole exactly when nothing was left in the channel,
  rejected, or lost (`SwarmTheorems.ReturnedFileIsWholeIff`; a run that fails:
  `SwarmExamples.ReturnsWithoutLastPiece`).
- The lock holder can wait for room in the channel while the loop that makes room waits in line for
  the lock, behind others that will send when they have it. The check of the bitfield completes if
  and only if everything that is sent before the loop's turn fits into the channel
  (`LockTheorems.CheckFinishesIff`; a run where it does not: `SwarmExamples.ComesToAStandstill`).
  What those behind the loop in line send counts as well, one message later: while it is too much,
  no run returns (`LockTheorems.JammedNeverReturns`). With one good peer and a piece missing beyond
  what those in line have finished, a return can be reached if and only if it is not
  (`CompletionTheorems.GoodPeerReturnsIff`).
- A download that owns every piece can be unable to return, because the last piece was rejected or
  lost and nobody has anything to send: `EndTheorems.AllOwnedReturnsIff` has the exact condition.
  With a multiple of 8 and a single downloader no return has the whole file
  (`EndTheorems.AloneIsNeverWhole`); a second one can deliver the lost piece
  (`EndTheorems.SecondDeliversLostPiece`).
- The window of five requests holds only up to the first choke. A choke does not give back the
  requests that were in flight, and the count is compared with 5 only just after it was raised. So
  with fewer than five counted the window shrinks, and with five or more it is gone: the whole rest
  of every pending piece is requested at once (`CounterProofs.WindowHoldsIffRoom`,
  `CounterProofs.WithoutRoomAllIsRequested`, for a whole pass `CounterProofs.PassKeepsToWindowIff`).
- Then the 8-bit counter can overflow. A pass ends in that panic if and only if the requests counted
  at its start, but at least five, and the blocks of the pieces it visits beyond the window are more
  than 255 (`CounterProofs.PassOverflowsIff`, in the swarm `SwarmTheorems.CounterOverflowsIff`).
  Before the first choke that is impossible (`SwarmTheorems.WindowBeforeFirstChoke`). One choke can
  be enough if and only if the first five pieces have more than 250 blocks
  (`OneChokeRuns.OneChokeOverflowsIff`), and more chokes can bring a downloader with a piece pending
  there in any torrent (`CounterTheorems.ChokesOverflow`).
- A downloader can be left waiting for nothing. After it has asked for more, the exact condition is
  that of `DownloadSteps.AwaitsNothingIff`. After a wrong hash it does not ask again, and awaits
  nothing if and only if it had no other piece pending (`SwarmTheorems.WrongHashStallsIff`; a run
  that gets there: `SwarmExamples.WrongHashStalls`). It stays so until its peer chokes it
  (`SwarmTheorems.IdleUntilChoked`).
- The comment at `src/download/mod.rs:484-487` says that a piece picked again means that all blocks
  of all remaining pieces are requested. For a torrent of two pieces or more, the first of two blocks
  or more, that holds in every run if and only if there is at most one downloader
  (`RepeatedPicks.ClaimHoldsIff`): a missing piece may only have been picked, because the lock is
  released before its first request is written and before it is entered into the table. What holds
  with any number is `SwarmTheorems.RepeatedPickMeansAllTaken`.
- The hand-written bencode decoder panics on an empty list or dictionary
  (`BencodeTheorems.PlainRoundTripIff`).
- The byte-wise seed check agrees with "every piece bit is set" if and only if there is no spare
  byte, or every byte but the last is 255, or some piece bit is clear (`Bitfields.CheckIsRightIff`).
  One spare byte can be enough to reject a seed (`Bitfields.SpareBytesRejectASeed`).

The comment at `src/download/mod.rs:321-323` says that after a choke the picker will yield the piece
again; in the code the piece stays in the table and is requested again from there.

## Model

| member | source | states |
|---|---|---|
| Picker.PickReturnsNearestMissing | src/download/bitfield.rs:70-88 | Picking ends, returns the missing piece that the cursor meets first, returns none exactly when all pieces are owned, and moves nothing but the cursor, to just behind that piece |
| Picker.PickKeepsOrder | src/download/bitfield.rs:76-86 | A pick keeps the order in which the cursor meets the other missing pieces and puts the returned one last |
| Picker.FairWithinTotalPicks | src/download/bitfield.rs:70-106 | In any interleaving of picks and completions a piece that stays missing is returned within as many picks as there are pieces |
| Picker.EveryOtherPieceOncePerRound | src/download/bitfield.rs:70-106 | Between two successive picks of a piece, every other piece that stays missing is picked exactly once |
| Picker.OwnedIsWhatWasSet | src/download/bitfield.rs:60-106 | After any run the owned set has grown by exactly the pieces that were set |
| Picker.CompleteIffConfirmed | src/download/bitfield.rs:37-38 | Everything is owned exactly when the low-water mark has reached the number of pieces |
| Bits.SettingABit | src/download/bitfield.rs:96-97 | Or-ing one mask into one bucket adds that piece to the set and no other |
| Bits.SumOnesCountsBits | src/download/bitfield.rs:110-113 | Adding up the ones byte by byte gives the size of the set of bits |
| Bitfields.Bitfield.Zero | src/download/bitfield.rs:60-68 | A new bitfield is the picker that owns nothing |
| Bitfields.Bitfield.PickPiece | src/download/bitfield.rs:70-88 | The loop over the packed bits terminates and is one pick of the picker |
| Bitfields.Bitfield.Has | src/download/bitfield.rs:90-93 | Tests membership in the owned set |
| Bitfields.Bitfield.SetBit | src/download/bitfield.rs:96-97 | The bit write adds the piece to the owned set and touches nothing else |
| Bitfields.Bitfield.AdvanceConfirmed | src/download/bitfield.rs:100-105 | The loop moves the low-water mark to the next clear bit, and runs out of the vector exactly when there is none |
| Bitfields.Bitfield.Set | src/download/bitfield.rs:95-106 | For any index: a piece is added and the mark kept at the least missing piece, with a panic if and only if it is the last missing piece and the total is a multiple of 8; a padding bit is set, and moves the mark only when all pieces are owned; an index outside the vector panics |
| Bitfields.Bitfield.Remaining | src/download/bitfield.rs:108-116 | Equals the number of missing pieces and never underflows |
| Bitfields.RemainingAfterSet | src/download/bitfield.rs:95-116 | Setting a missing piece lowers the number remaining by exactly one, setting an owned piece does not change it |
| Bitfields.IsSeed | src/download/bitfield.rs:3-21 | The byte-wise loop with early exit decides seed, no seed, or an out-of-range read for every length of bitfield |
| Bitfields.SeedIffAllPieces | src/download/bitfield.rs:3-21 | With exactly enough bytes the check accepts if and only if every piece bit is set |
| Bitfields.SeedImpliesAllPieces | src/download/bitfield.rs:3-21 | With spare bytes acceptance still implies that every piece bit is set |
| Bitfields.SpareBytesCheck | src/download/bitfield.rs:3-21 | With spare bytes the check asks only whether every byte but the last is 255 |
| Bitfields.CheckIsRightIff | src/download/bitfield.rs:3-21 | For every bitfield that is long enough, exactly when the check agrees with: every piece bit is set |
| Bitfields.SpareBytesRejectASeed | src/download/bitfield.rs:6-10 | One spare byte makes the check reject a seed of six pieces |
| MetaInfo.Size | src/bencode/meta_info.rs:43-54 | The length of an existing piece is positive, at most the piece length, and ends inside the content |
| MetaInfo.PiecesAreConsecutive | src/bencode/meta_info.rs:43-61 | Each piece ends where the next begins, and the last at the total length |
| MetaInfo.EveryByteInOnePiece | src/bencode/meta_info.rs:43-61 | Every byte of the content lies in exactly one piece |
| MetaInfo.SpliceChangesOnePiece | src/download/mod.rs:123-125 | A delivery replaces its own piece and leaves every other piece alone |
| MetaInfo.SpliceAllInAnyOrder | src/download/mod.rs:116-126 | Deliveries in any order with repetitions put the true content at exactly the delivered pieces |
| MetaInfo.AllDeliveredRebuildsContent | src/download/mod.rs:116-137 | Once every piece was delivered the file is the content |
| FileWriter.Write | src/file/mod.rs:12-32 | File j receives the bytes between its offset and the next; the slicing panics exactly when the lengths add up to more than there are bytes |
| FileWriter.FilesConcatenateToContent | src/file/mod.rs:17-29 | The written files, one after the other, are the downloaded bytes |
| Bitfields.TooShortIsNeverAccepted | src/download/bitfield.rs:3-21 | A bitfield with too few bytes is never accepted: it panics if it is empty or all bytes are 255, else it is rejected |
| RequestTheorems.RoundInClosedForm | src/download/mod.rs:550-583 | One round asks for the next blocks in order, 16384 bytes each but for the end of the piece: up to five in flight, or from five on up to 256 |
| RequestTheorems.EveryRequestIsProper | src/download/mod.rs:556-572 | In every run each request starts at a multiple of 16384 and has 16384 bytes, or what is left of its piece |
| RequestTheorems.CounterIsRightIff | src/download/mod.rs:494-500 | The 16-bit counter is the number of 16384-byte blocks exactly up to 65535 of them, and else its low 16 bits |
| MessageOutcomes.MessageEnds | src/download/mod.rs:302-440 | For every message and state: which error it ends in and exactly when, when it panics, what is recorded and handed on, and that other messages change nothing |
| MessageOutcomes.LastIffOneRemains | src/download/mod.rs:392-410 | The counter of a piece reaches zero exactly with its last awaited block, when none is left to request |
| WholeDownload.WriteDownloaded | src/main.rs:74-78 | After a return the writer never panics: a single file gets all its bytes, several get each its path and length, and distinct paths stay distinct |
| DownloadSpec.BlockCounterFitsIff | src/download/mod.rs:494-500 | The 32-bit sum stored in 16 bits is the number of blocks exactly for pieces of at most 65535 blocks |
| DownloadProofs.RequestBlocksDoes | src/download/mod.rs:542-585 | Requesting keeps the accounts of the piece, adds only fresh blocks of that piece, counts each once, and leaves something awaited if it started below the overflow |
| DownloadProofs.RequestPendingKeeps | src/download/mod.rs:448-470 | The pass over the pending pieces keeps the accounts in any order, only adds requests, and leaves every piece with an awaited block unless the counter overflows |
| DownloadProofs.StartPieceKeeps | src/download/mod.rs:493-513 | A newly picked piece enters the table under a fresh key with its accounts in order and a block awaited |
| DownloadProofs.ChokeKeeps | src/download/mod.rs:308-337 | A choke keeps the accounts and strands exactly the awaited blocks in the counter |
| DownloadProofs.AcceptKeeps | src/download/mod.rs:384-407 | An awaited block keeps the accounts and the number of stranded requests |
| DownloadProofs.FinishKeeps | src/download/mod.rs:410-414 | Removing a finished piece leaves no block of it behind |
| DownloadProofs.RequestBlocksSends | src/download/mod.rs:550-583 | No block is requested twice, and every request sent becomes an awaited block |
| WindowProofs.RequestPendingKeepsWindow | src/download/mod.rs:448-474 | Started with room, the pass keeps at most five awaited blocks and at most one partly requested piece |
| WindowProofs.RequestPendingExhausts | src/download/mod.rs:448-474 | In all runs a pass that leaves room in the window has requested every block of every pending piece |
| WindowProofs.StartPieceKeepsWindow | src/download/mod.rs:493-513 | Starting a picked piece keeps the window and repeats no request, even if somebody else has finished the piece since it was picked |
| CounterProofs.RequestBlocksCounts | src/download/mod.rs:550-583 | The counter after requesting from one piece: up to 5 if it was below, else up by the whole rest of the piece or to the overflow |
| CounterProofs.WindowHoldsIffRoom | src/download/mod.rs:579-582 | Asking an unexhausted piece leaves at most five counted if and only if fewer than five were |
| CounterProofs.WithoutRoomAllIsRequested | src/download/mod.rs:579-582 | With five or more counted the whole rest of the piece is requested, unless the counter overflows |
| CounterProofs.PassKeepsToWindowIff | src/download/mod.rs:448-470 | A pass leaves at most five counted exactly if no more were counted before and nothing is left to request beyond the window |
| CounterProofs.PassOverflowsIff | src/download/mod.rs:579 | Exactly when a pass over the pending pieces overflows the 8-bit counter |
| WindowProofs.RequestsAreBounded | src/download/mod.rs:550-583 | Before the first choke no more requests are sent than the torrent has blocks |
| WindowProofs.FinishedPieceIsReassembled | src/download/mod.rs:405-414 | When no block remains, each byte of the piece is the byte of the accepted payload that covers it |
| WindowProofs.TruePayloadsGiveTruePiece | src/download/mod.rs:405-414 | True payloads give the true piece |
| DownloadSteps.RequestPiecesKeeps | src/download/mod.rs:442-540 | Asking for more keeps the accounts and the owned set |
| DownloadSteps.AwaitsNothingIff | src/download/mod.rs:442-540 | An unchoked downloader that has asked for more awaits nothing if and only if it had no pending piece and either all pieces are owned or stranded requests fill its window |
| DownloadSteps.HandlesKeeps | src/download/mod.rs:302-440 | Every message keeps the accounts, owned pieces stay owned, and only a choke strands requests |
| SeedDownloaders.SeedDownloader.constructor | src/download/mod.rs:229-245 | A new downloader is choked and has nothing pending |
| SeedDownloaders.SeedDownloader.RequestBlocks | src/download/mod.rs:542-585 | The loop, with its fresh-block assertion, refines the specified requests and panics exactly when the counter overflows |
| SeedDownloaders.SeedDownloader.RequestPending | src/download/mod.rs:448-470 | The loop over the table visits every pending piece once, with both assertions, and is the specified pass for that order; it stops where the counter overflows |
| SeedDownloaders.SeedDownloader.StartPiece | src/download/mod.rs:493-513 | Requests first, then inserts under a key that is asserted to be fresh |
| SeedDownloaders.SeedDownloader.RequestPieces | src/download/mod.rs:442-540 | The pass, then one pick under the lock, is the specified request for more |
| SeedDownloaders.SeedDownloader.HandleChoke | src/download/mod.rs:308-337 | Every pending piece starts again and no block is awaited; the counter of requests in flight keeps its value |
| SeedDownloaders.SeedDownloader.AcceptBlock | src/download/mod.rs:384-407 | Neither counter underflows and the splice is in range |
| SeedDownloaders.SeedDownloader.CompletePiece | src/download/mod.rs:410-430 | Records, removes, checks the hash and hands on, in that order, with the three ways to end |
| SeedDownloaders.SeedDownloader.HandlePiece | src/download/mod.rs:374-431 | A block that was not asked for changes nothing; the branch for an unrequested piece is unreachable |
| SeedDownloaders.SeedDownloader.HandleMsg | src/download/mod.rs:302-440 | Every message has the specified effect on downloader, bitfield and channel |
| FileDownload.File.Receive | src/download/mod.rs:116-135 | One turn of the loop splices the piece at its place and stops exactly when every piece is owned |
| FileDownload.ReceivingIsASchedule | src/download/mod.rs:116-135 | That turn is a schedule of the swarm when the lock is free |
| NodeProofs.MessageKeepsNode | src/download/mod.rs:302-410 | A message keeps what holds of a downloader at each point where it can stand, for any state of the shared bitfield |
| NodeProofs.CompleteKeepsNode | src/download/mod.rs:410-427 | So does completing a piece under the lock, in all three outcomes |
| NodeProofs.StartKeepsNode | src/download/mod.rs:493-513 | So does starting a piece after the lock was released |
| SwarmTheorems.EveryReachableWorldIsOk | src/download/mod.rs:99-138 | All invariants hold in every state that any interleaving reaches |
| SwarmTheorems.PiecesAreConserved | src/download/mod.rs:410-427 | In every interleaving a piece is owned exactly when it is spliced, queued, in the hand of the lock holder, rejected, or lost in a panic |
| SwarmTheorems.ReturnedFileIsWholeIff | src/download/mod.rs:116-137 | On return the file has every piece if and only if no piece was left queued, rejected or lost, and then it is the content |
| SwarmTheorems.CleanReturnHasContent | src/download/mod.rs:130-137 | A return with an empty channel, no wrong hash and a number of pieces that is not a multiple of 8 yields the content |
| SwarmTheorems.LastPieceIsLostIff | src/download/bitfield.rs:99-105 | A completion has panicked if and only if all pieces are owned and their number is a positive multiple of 8 |
| SwarmTheorems.AssertionsNeverFire | src/download/mod.rs:389-451 | In every reachable state the assertions and the unwrap hold where they stand, and no awaited block lacks its piece |
| SwarmTheorems.WindowBeforeFirstChoke | src/download/mod.rs:448-583 | Until the first choke: in flight equals awaited, at most 5, at most one partly requested piece, no request repeated, and no more requests than blocks |
| SwarmTheorems.NoStall | src/download/mod.rs:442-540 | Between messages every pending piece of an unchoked downloader has an awaited block, so it awaits nothing if and only if nothing is pending; without wrong hashes that takes that all is owned or chokes have used up its window |
| SwarmTheorems.WrongHashStallsIff | src/download/mod.rs:415-418 | A wrong hash leaves a downloader awaiting nothing if and only if the rejected piece was its only pending one |
| SwarmTheorems.IdleUntilChoked | src/download/mod.rs:302-440 | An unchoked downloader that awaits nothing keeps its state in every run without a choke from its peer |
| SwarmTheorems.CounterOverflowsIff | src/download/mod.rs:448-470 | In any reachable state, exactly when asking for more ends in the overflow of the counter |
| OneChokeRuns.OneChokeOverflowsIff | src/download/mod.rs:324-333 | In some run a downloader choked at most once overflows its counter if and only if the first five pieces, or all if fewer, have more than 250 blocks |
| OneChokeRuns.SomeRunOverflows | src/download/mod.rs:579-582 | That run: one downloader, the first five pieces pending with five requests in flight, one choke |
| OneChoke.RunBounded | src/download/mod.rs:448-470 | With fewer blocks than that no run overflows: after one choke the counter stays within the stranded requests plus the blocks that remain, or within the window |
| CounterTheorems.ChokesOverflow | src/download/mod.rs:324-333 | From every state in which a downloader waits with a piece pending, lock and channel do not block each other and a piece stays missing, chokes and unchokes lead to the overflow, overtaking nobody in line |
| SwarmTheorems.OnlyChokesStrandRequests | src/download/mod.rs:324-333 | In flight minus awaited is never negative, grows by the awaited blocks at a choke, and never changes otherwise |
| SwarmTheorems.BlocksAreAccounted | src/download/mod.rs:448-451 | Remaining blocks are the awaited blocks plus those still to be requested; awaited blocks lie on the grid below the mark and have the right length |
| SwarmTheorems.ReceivedCountsBlocks | src/download/mod.rs:384-394 | Exactly the arrival of an awaited block is counted, which with the bound on requests measures progress |
| SwarmTheorems.CompletedPieceIsReassembled | src/download/mod.rs:405-414 | In any run every byte of a completed piece comes from a block accepted since the piece was last started |
| SwarmTheorems.TrueBlocksGiveTruePiece | src/download/mod.rs:405-414 | If those blocks were true the piece is the true piece |
| SwarmTheorems.RepeatedPickMeansAllTaken | src/download/mod.rs:475-491 | When the picker returns a piece that the asker has pending, every missing piece is pending at some downloader or picked and not yet started, and the asker has requested all its blocks; if it is alone, all blocks of all missing pieces |
| RepeatedPicks.ClaimHoldsIff | src/download/mod.rs:484-491 | For every torrent of two pieces or more, the first of two blocks or more, and any number of downloaders: the claim of the comment holds in every run if and only if there is at most one |
| RepeatedPicks.PickedAgainWithoutRequests | src/download/mod.rs:475-513 | With two or more, a choke-free run in which a pending piece is picked again while no block of a missing piece was ever requested by anyone |
| SwarmSchedules.HandlingIsASchedule | src/download/mod.rs:302-440 | The in-place handling of a message is one of the schedules of the swarm |
| LockTheorems.BlockedIsForever | src/download/mod.rs:411-426 | If what the lock holder and those ahead of the loop in line send does not fit into the channel, no step of any run ends that, and the file stays as it is |
| LockTheorems.CheckFinishesIff | src/download/mod.rs:130-134 | The check of the bitfield can be completed if and only if it fits |
| LockTheorems.JammedNeverReturns | src/download/mod.rs:110-137 | The same with those behind the loop in line: while it is too much, no run returns |
| Draining.Drain | src/download/mod.rs:110-137 | Otherwise, with a piece still missing after the whole line, a schedule serves everybody in line in order and empties the channel |
| FailTheorems.StopsIff | src/download/mod.rs:251-299 | Exactly when a downloader leaves its loop: all owned at its top, the stream ends, a message is not implemented, recording panics, or the counter overflows |
| FailTheorems.FirstComeFirstServed | src/download/mod.rs:411-426 | Messages leave the channel in the order in which they came, and the lock goes to who has waited longest |
| FailTheorems.FailedMeansNobodyLeft | src/download/mod.rs:116-117 | A download has failed only with an empty channel and every downloader gone |
| FailTheorems.NobodyLeftReturnsOrFails | src/download/mod.rs:116-134 | With every downloader gone it returns if and only if all is owned and another check comes, and fails otherwise |
| FailTheorems.FailsWhenAllLeave | src/download/mod.rs:273-284 | With any number of peers a download fails when all of them leave at once |
| CompletionTheorems.OneGoodPeerIsEnough | src/download/mod.rs:99-138 | Then some schedule of one good peer leads to a return with an empty channel and, if no piece in line or before was wrong, the whole content; nobody is overtaken in line |
| CompletionTheorems.GoodPeerReturnsIff | src/download/mod.rs:110-137 | Under these conditions a return can be reached if and only if lock and channel do not block each other |
| EndTheorems.AllOwnedReturnsIff | src/download/mod.rs:130-137 | When every piece is owned, a return can be reached if and only if lock and channel do not block each other and something is still to come |
| EndTheorems.AloneIsNeverWhole | src/download/bitfield.rs:99-105 | With one downloader and a positive multiple of 8, no reachable return has every piece in the file |
| EndTheorems.SecondDeliversLostPiece | src/download/bitfield.rs:99-105 | With two that have both finished the last piece, the piece lost by the first is delivered by the second and the file is whole |
| SwarmExamples.ReturnsWithoutLastPiece | src/download/mod.rs:130-137 | A run of two pieces returns without the second |
| SwarmExamples.ComesToAStandstill | src/download/mod.rs:110-134 | A run of seven pieces reaches a check that can never finish |
| SwarmExamples.WrongHashStalls | src/download/mod.rs:415-418 | After a wrong hash a downloader is left awaiting nothing with a piece missing |
| PeerMessages.MessageCodec.Decode | src/download/peer_msg.rs:76-155 | One call takes one message off the buffer, leaves an incomplete frame alone, and fails or panics on the specified malformed input |
| PeerMessages.MessageCodec.Encode | src/download/peer_msg.rs:161-246 | Appends exactly the frame of the message, or panics, having written nothing, exactly if the length of header and cut payload overflows |
| WireFormat.FramesAreSpelled | src/download/peer_msg.rs:161-246 | The frame of each of the ten messages, byte for byte, lengths and types as numbers and the most significant byte first |
| WireFormat.BytesAreRead | src/download/peer_msg.rs:76-155 | What every buffer is read as, byte for byte; an unknown type is an error exactly if its byte is above 8 |
| Framing.DecodeInvertsEncode | src/download/peer_msg.rs:76-246 | Decoding a frame followed by anything gives the message and what follows |
| Framing.InStepIffCanonicalLength | src/download/peer_msg.rs:81-152 | A decoded message took exactly its frame off the buffer if and only if the length prefix is the one the encoder writes |
| Framing.PartOfAFrameWaits | src/download/peer_msg.rs:77-98 | A frame that has not arrived in full is left in the buffer |
| Framing.ChunkingDoesNotMatter | src/download/peer_msg.rs:76-246 | Any list of messages, framed and cut into chunks anywhere, is received as that list, in order, with an empty buffer at the end |
| BencodeNom.NumberFromReadsTheRun | src/bencode/nom.rs:40-43 | Digit-by-digit reading with overflow checks gives the whole run of digits if that fits 64 bits, and an error otherwise |
| BencodeNomProofs.DecodeComplete | src/bencode/nom.rs:18-61 | Every text of the grammar is decoded to its meaning, whatever follows |
| BencodeNomProofs.DecodeSound | src/bencode/nom.rs:18-61 | Whatever is decoded is a text of the grammar with that meaning |
| BencodePlain.Decode | src/bencode/plain.rs:11-67 | The recursion with list and dictionary loops is the specified decoder, including errors and panics |
| BencodePlain.DecodeComplete | src/bencode/plain.rs:11-67 | A text of the grammar is decoded to its meaning if no list or dictionary in it is empty, and is a panic otherwise |
| BencodePlain.DecodeSound | src/bencode/plain.rs:11-67 | Whatever is decoded is such a text with that meaning |
| BencodeTheorems.PlainResultsAreNomResults | src/bencode/plain.rs:11-67 | What the hand-written decoder returns, the combinator decoder returns too |
| BencodeTheorems.NomResultsInPlain | src/bencode/nom.rs:18-61 | What the combinator decoder returns, the hand-written one returns exactly if the text read has no empty list or dictionary; otherwise it panics |
| BencodeTheorems.NomFailsIff | src/bencode/nom.rs:18-61 | The combinator decoder fails if and only if no text of the grammar is in front |
| PlainFailures.ErrsIff | src/bencode/plain.rs:11-28 | The hand-written decoder returns an error if and only if it gets stuck where there is nothing, or a number or length without an end or that is none |
| PlainFailures.PanicsIff | src/bencode/plain.rs:20-64 | It panics if and only if it gets stuck where a character begins nothing, a string is cut off, or a key is no string |
| BencodeTexts.DecodedKind | src/bencode/nom.rs:18-61 | The first character of what is decoded is i, a digit, l or d according to the kind, and the last is e if it is no string |
| BencodeTexts.PlainDecodedKind | src/bencode/plain.rs:11-64 | The same for the hand-written decoder |
| BencodeTexts.EncodedKind | src/bencode/nom.rs:18-61 | The same for the canonical encoding; a string is its length, a colon and its bytes |
| BencodeTexts.IntegersAreRead | src/bencode/nom.rs:40-43 | i, a plus, a minus or no sign, decimal digits and e are read as that number by both decoders, from -2^63 to 2^63-1 |
| BencodeTexts.TooLargeIsAnError | src/bencode/plain.rs:23-28 | A number outside is an error in both |
| BencodeTexts.StringsAreRead | src/bencode/plain.rs:13-21 | Digits, a colon and that many bytes are read as that string by both |
| BencodeTexts.AListIsRead | src/bencode/plain.rs:30-43 | l5:helloi52ee is the list of hello and 52 for both |
| BencodeTexts.ADictionaryIsRead | src/bencode/plain.rs:45-63 | d5:helloi52ee is the dictionary from hello to 52 for both |
| BencodeTexts.ANumberIsEncoded | src/bencode/nom.rs:40-43 | -326 is encoded as i-326e |
| BencodeTexts.LastEntryCounts | src/bencode/nom.rs:49-61 | Of several entries with the same key the last counts |
| BencodeTheorems.TextIsUnique | src/bencode/nom.rs:18-61 | The text read is determined by the input |
| BencodeTheorems.NomIsLocal | src/bencode/nom.rs:18-61 | A successful decode consumes a non-empty prefix and does not depend on what follows |
| BencodeTheorems.PlainIsLocal | src/bencode/plain.rs:11-67 | The same for the hand-written decoder |
| BencodeTheorems.NomRoundTrip | src/bencode/nom.rs:18-61 | Decoding the canonical encoding of a value gives the value, for every value |
| BencodeTheorems.PlainRoundTripIff | src/bencode/plain.rs:11-67 | The same for the hand-written decoder exactly for values without an empty list or dictionary; it panics on the others |

## Left out

- SeedDownloaders.SeedDownloader.RequestBlocks: sending a request always succeeds; a failed send after the first block of a new piece would leave awaited blocks without a piece.
- SeedDownloaders.SeedDownloader.CompletePiece: sending to the channel succeeds; that it can wait, and that other downloaders run meanwhile, is in the swarm.
- SwarmTheorems.AssertionsNeverFire: for pieces of at most 65535 blocks, where the 16-bit counter is right (`DownloadSpec.BlockCounterFitsIff`).
- Pending pieces are values in a map rather than objects: the table owns them and nothing else refers to them.
- Lock and channel are modelled as first come, first served from the moment somebody asks; between two steps of the same downloader any number of others can ask first.
- CompletionTheorems.GoodPeerReturnsIff: for a number of pieces that is not a multiple of 8; for the others see `EndTheorems.AloneIsNeverWhole` and `EndTheorems.AllOwnedReturnsIff`.
- RepeatedPicks.ClaimHoldsIff: for torrents whose content gives the hashes, of at least two pieces, the first of at least two blocks.
- The swarm stops at the return of the download; what downloaders do afterwards cannot change the returned bytes.
- Arithmetic that overflows counts as a panic, as in a debug build, with two exceptions: `DownloadSpec.NumBlocks` wraps its 32-bit sum, which matters only for pieces of nearly 4 GiB, and numbers above 32 bits in a message handed to the encoder are cut, where the program has 32-bit fields. Sizes are 64 bits wide. `MetaInfo.Info.Valid` lists what the geometry takes for granted, among it a positive piece length and a hash for every piece.
- The hash function is a parameter; the content claims assume that no other bytes of a piece's length have that piece's hash.
- UTF-8: the lossy conversion of strings is a parameter; the round trips ask that it leaves the strings of the value unchanged.
- Sockets, timeouts, keepalive timers, peer and seed selection, printing.
- Trackers, the handshake, the entry point, command line parsing, serialization with serde, and the info hash.
- Directory creation and path handling when files are written; two files with the same path are two writes.
- `Bitfield::from_vec`, which only the unit tests of the program call, can build a bitfield whose mark is not the least missing piece.
