# The differencing backup engine, modelled and proved

This project models the engine of cryptar's `version-1/` and two small cores beside it, and proves what
the engine's parts keep and achieve. A file that was archived before is compared with its old block list:
a rolling checksum finds old blocks that are still in the file, the holes between them are filled with new
blocks, the new blocks are sealed and sent, and when the server has acknowledged them all the list itself
is sent. Extraction asks for the list, then for every block in it, and writes each block at its offset.

The code is modelled as it is written. Where it falls short of its comments, the model keeps the branch
and a theorem says exactly when the promise holds.

## How it is laid out

| files | what they hold |
|---|---|
| `Bytes`, `Blocks`, `Options` | fixed-width integers, byte layouts, block records |
| `WeakChecksum`, `HashTable`, `RollingIndex`, `Matching` | the checksum, the table of windows, what is found in it |
| `Covering`, `CoverLaws`, `FewestBlocks`, `Signatures`, `Ids` | completing a cover, what it achieves, the code that does it in place, local ids |
| `Restore`, `CoverFailures` | writing blocks back, which lists rebuild every file, and stored lists for which they do not |
| `IosBuffer`, `Framing`, `StreamLaws`, `Messages`, `Records`, `Layout`, `Channel` | the byte queue, packets on a stream, messages, lists and records, where each field lies, and messages over the stream |
| `Protocol` | client, server and two channels as steps |
| `ProtocolSafety`, `ProtocolSteps`, `ProtocolTickets`, `ProtocolRuns`, `ProtocolLaws` | the invariant, its proof, and what follows in every state of every run |
| `Progress`, `Rest` | a measure that every step lowers, a step to take as long as there is room, and so every run comes to rest |
| `WorkTickets`, `ClientSide`, `ServerSide` | the same handlers as code that updates tickets and the store in place |
| `Recovery`, `EndToEnd`, `Sessions`, `TwoFiles` | the file that all extractions of a session write to, from an archived file to the extracted one, and a run that loses a file |
| `WorkList`, `Reuse` | the limit on the work list, when it stops the walk over the files, and what is found again of an unchanged file |
| `WindowCache`, `SparseWriter`, `PathNames`, `LeadingDots` | the window over a file, writing with holes, cleaning path names, and which of them turn absolute |
| `Communicator`, `Delivery` | the batched sender of `src/communicate.cpp` over all interleavings, and that it gets done |

Code that updates state is a method over a class or array and is proved against functions on values; the
theorems are lemmas about these functions. SHA-1, compression and encryption are parameters: `sha` is any
function, `unseal` any that opens some data and fails for other, and a payload is one that sealing may give
exactly if `unseal` gives back the plain bytes (encryption is random). A sealed payload that is cut off does not
open, because decompression misses the end of its stream; the client then exits. Reuse and extraction need that
digests do not collide; this is asked only of the data stored for one file (`EndToEnd.NoCollisions`), never of
all strings.

## What was found

- Every extraction of a session opens the same file, which empties it, and all blocks of the session are written
  there. Of files of one block and the same length the one written last comes back (`TwoFiles.OneOfMany`); of two
  that differ, one is lost (`TwoFiles.OneOfTwo`). For any two such files there is a run of two sessions, from
  archiving to rest, in which that happens (`TwoFiles.TwoFilesRun`, `TwoFiles.OneLost`). What the file holds is
  stated for any number of extractions (`EndToEnd.Recovered`); below, "undisputed" means that the file was opened
  last for this extraction and no other has written since, as when it is the only one (`EndToEnd.OnlyFile`).
- A record tells its length in 16 bits. When the record of a block or of a block list is longer than that, which
  the list of a file of some thousand blocks is, the client exits as soon as it gets it back, and the extraction
  never comes to rest (`ProtocolLaws.CutRecordsStop`); when the length is a multiple of 65536 it is taken for
  missing, and what comes back lacks it (`EndToEnd.UndisputedList`).
- With all records below 65536 bytes, a file archived for the first time comes back undisputed exactly if it is at
  most one block long or made of whole blocks; in general exactly if the blocks that are given back are enough for
  it (`Sessions.BackupComesBack`, `Restore.EnoughExact`). Otherwise the last block is pushed back but stays short,
  the last byte lies in no block (`CoverLaws.TailLost`; which bytes exactly, in `CoverLaws.FirstLostBytes`), and what
  comes back is shorter (`Restore.LastByteLost`).
  The same branch alone decides when all old blocks were found (`EndToEnd.ReusedFileComesBack`).
- A hole before a stale block can be filled across the end of the file. Such a block is sent with the digest
  of what could be read, and is taken for an imposter when it comes back (`CoverLaws.StraddleLost`); a file and
  a stored list with which that happens are in `CoverFailures.HoleAcrossEnd`.
- Blocks that are no longer part of the file stay in the stored list and are installed with the others. The
  list rebuilds every file if and only if each byte is settled by a cover block that no stale block overwrites
  later, and no stale block reaches past the end (`Restore.RestoreExact`). `CoverFailures.StaleOverwrites` has a
  file and a stored list where a stale block wins.
- A ticket whose list has no new block waits for ever (`ProtocolLaws.RestExact`); with a first archiving that
  happens exactly to an empty file (`Sessions.ArchivingEnds`). Such tickets fill the work list: as soon as there
  are more than twenty, no further file is archived in that session and goodbye is never said
  (`WorkList.WalkStops`, `WorkList.RestIsFinal`). A file that is archived again without a change is such a one,
  if each of its blocks is whole and its window the first of its key (`Reuse.UnchangedStays`).
- A ticket that extracts is never removed and the session never says goodbye, although all its blocks come:
  requests are not counted, their acknowledgements are (`Sessions.ExtractNeverEnds`).
- The blocks that fill a hole are as few as possible exactly if none lies behind the end of the file
  (`FewestBlocks.FewestExact`); a file for which one is added too many is in `FewestBlocks.OneTooMany`.
- `read_and_dispatch_commands` never reports failure, and a packet behind an unknown command waits
  (`Framing.ReadAndDispatch`, `StreamLaws.UnknownHoldsUp`).
- A second `hash_create` leaves a table without its pool (`HashTables.HashTable.HashCreate`); only the low 16
  bits of a key are compared, and these are the plain sum of the words (`Matching.ComparedPart`).
- `ios_append_ios` is a queue operation exactly if nothing has been read from its source
  (`IosBuffer.IosBuf.AppendIos`); a record keeps its payload exactly below 65536 bytes
  (`Messages.RecordExact`); the answer to the greeting is never read as it is written
  (`Records.HelloAckMisread`).
- The branch in which waiting for the sender gives up is never taken (`Communicators.NeverGivesUp`); but a block pushed
  while it waits to join can be left behind (`Communicators.WaitExact`, `Communicators.LeftBehind`).
- `last_sparse` outlives its file: an empty file then gets a byte (`SparseWriter.Sparse.SparseEnd`).
- `clean_fname` can make a relative path absolute. Whether it does is decided by the groups of a dot and slashes
  that the path begins with: two at a time are taken off, and they must not have more than three slashes
  together (`LeadingDots.RelativeExact`).

## Model

| member | source | states |
|---|---|---|
| WeakChecksum.WcsumGet | version-1/checksum.c:51-70 | the loop in wrapping 32-bit arithmetic over signed bytes yields the weak checksum defined on unbounded sums; for a length that is no multiple of four the low half also counts the last word, read to its end, and the high half does not |
| WeakChecksum.KnownChecksums | version-1/checksum.c:47-70 | three checksums in numbers, one of them of a byte that is negative as a signed char |
| WeakChecksum.RollingUpdate | version-1/checksum.c:74-87 | updating the checksum of a window gives the checksum of the window one word further on, for all windows, modulo 2^16 inside 32-bit arithmetic |
| HashTables.BucketFirst | version-1/hash.c:112-137 | a bucket is empty exactly if no inserted key agrees in the low 16 bits, and otherwise begins with the earliest such entry |
| HashTables.HashTable.HashCreate | version-1/hash.c:75-89 | an empty table; it has a pool exactly if there was no table before |
| HashTables.HashTable.HashDestroy | version-1/hash.c:95-108 | no table is left, and no pool where there was a table |
| HashTables.HashTable.HashInsert | version-1/hash.c:178-201 | the insertion log grows by the entry; each bucket stays the filter of the log, collisions stay entries less non-empty buckets |
| HashTables.HashTable.HashFind | version-1/hash.c:115-137 | finds exactly if some inserted key agrees in the low 16 bits, and then the earliest value |
| RollingIndex.MakeHashSub | version-1/checksum.c:119-180 | the two swapped buffers stay around the window: one pass logs one entry for each of its windows, in order, with that window's checksum |
| RollingIndex.MakeHash | version-1/checksum.c:100-112 | four passes log the index of the file, from a table that is empty, or has lost its pool, which only matters if a window fits |
| RollingIndex.IndexExact | version-1/checksum.c:89-112 | the index has exactly one entry for each offset at which a window fits, holding that window's checksum, and nothing else |
| Matching.FirstIsOffered | version-1/hash.c:115-137 | the value found for a key is the offset of the first window, in the order of the passes, whose checksum agrees |
| Matching.MatchExact | version-1/covering.c:99-119 | a block is marked if and only if the window offered for its weak checksum starts a stretch of its length, inside the file, with its strong checksum; it is moved there, keeps its id exactly if it has not moved, and nothing else of it changes |
| Reuse.UnchangedBlock | version-1/covering.c:99-119 | a whole block with the checksums of its part of the file is found at its old place, with its id, if and only if no window that is looked at earlier has its key |
| Reuse.UnchangedFile | version-1/covering.c:70-87 | a file that such blocks make up gets no new block |
| Reuse.FoundAgain | version-1/covering.c:99-119 | over any run: a whole block of an archived list is found again, in the unchanged file, exactly if its window is the first of its key |
| Reuse.UnchangedStays | version-1/covering.c:70-87 | over any run: a file archived again without a change, all of whose blocks are whole and first, has no new block, so that its ticket stays |
| Matching.ComparedPart | version-1/checksum.c:51-70 | the compared half of the checksum is the plain sum of the words, whatever their order |
| Covering.SortByOffset | version-1/covering.c:191-202 | the array is permuted into the order of offsets |
| Covering.GapFacts | version-1/covering.c:158-170 | where the blocks for a hole start, that they are a block length apart and reach the hole's end |
| Covering.ScanFacts | version-1/covering.c:145-170 | each byte passed by the scan is in a reused block or reached from a point at which a block was added; points are a block length apart |
| Covering.TailFacts | version-1/covering.c:172-185 | the points of the loop over the end lie inside the file, a block length apart, and reach its end |
| CoverLaws.CoverExact | version-1/covering.c:130-187 | each byte of the file lies in a cover block if and only if the tail fits, the negated guard of the branch that pushes a short block back |
| CoverLaws.TailLost | version-1/covering.c:175-181 | with a pushed-back block the last byte lies in no cover block |
| CoverLaws.TailExact | version-1/covering.c:172-185 | the blocks added at the end, exactly: whole ones one after the other, and one of what is left, a block length before the end of the file if that is longer than a block |
| CoverLaws.FirstListExact | version-1/covering.c:172-185 | the list of a first archiving from the length of the file alone |
| CoverLaws.LostBytesExact | version-1/covering.c:175-181 | when the tail does not fit, which bytes are in no cover block: those behind the whole blocks and behind the short one |
| CoverLaws.FirstLostBytes | version-1/covering.c:175-181 | the bytes lost of a file archived for the first time, from its length alone |
| CoverLaws.StraddleLost | version-1/covering.c:158-170 | a byte at which a hole is filled across the end of the file lies in no cover block that is inside the file |
| CoverLaws.IntactExact | version-1/covering.c:130-187 | each byte lies in a cover block inside the file if and only if no hole is filled across the end and the tail fits |
| CoverLaws.AddedInside | version-1/covering.c:145-185 | with each listed block a block length away from the end, each added block is not empty and lies inside the file |
| CoverLaws.FirstCoverExact | version-1/covering.c:172-185 | without old blocks the cover is complete exactly for at most one block or whole blocks, and nothing is added exactly for an empty file |
| CoverLaws.TenBytesInFours | version-1/covering.c:175-181 | a concrete file whose last byte is lost |
| FewestBlocks.OneStretchEach | version-1/covering.c:155-185 | bytes a block length apart need a block each: the charging argument |
| FewestBlocks.FewestExact | version-1/covering.c:155-185 | the number of added blocks is the least possible if and only if none was added at or behind the end of the file |
| FewestBlocks.OneTooMany | version-1/covering.c:158-170 | a file of three bytes and a stale block behind it: two blocks of four bytes are added where one would do |
| FewestBlocks.FewestWhenListedInside | version-1/covering.c:155-185 | the greedy choice is optimal when no listed block lies behind the end |
| Signatures.ReusedInRange | version-1/covering.c:99-119 | blocks moved to where they were found stay within 32-bit offsets |
| Signatures.Signature.FillHole | version-1/covering.c:158-170 | the inner loop appends the blocks of one hole |
| Signatures.Signature.FillHoles | version-1/covering.c:145-170 | the loop over the list appends the blocks of all holes and ends where the scan does |
| Signatures.Signature.FillTail | version-1/covering.c:172-185 | the last loop appends the blocks of the end, the short one pushed back |
| Signatures.Signature.CompleteCover | version-1/covering.c:130-187 | the list becomes a sorting of itself followed by exactly the added blocks |
| Signatures.Signature.CoverHash | version-1/covering.c:99-119 | each block of the list becomes its match and no other changes |
| Signatures.Signature.UpdateRemote | version-1/covering.c:70-87 | the list becomes an update: reused, sorted, completed; the table is gone again |
| Signatures.Signature.SaveLocal | version-1/covering.c:247-263 | missing ids are filled in from the counter, in order, nothing else changes; records are made for the blocks that got an id and are stored |
| Ids.IdCounter.GetNextIndex | version-1/db_misc.c:190-248 | one more than any index before, and zero exactly at wrap-around |
| Ids.SavedIds | version-1/covering.c:247-263 | afterwards each block has an id and no two the same |
| Ids.RecordedExact | version-1/covering.c:247-263 | records are made of exactly the stored blocks whose ids are new |
| Ids.FindBlockExact | version-1/workticket.c:196-212 | among distinct ids the very block is found, and an id that no block has is not |
| Ids.SortingKeepsIds | version-1/covering.c:191-202 | sorting keeps ids distinct |
| Restore.WriteAllIs | version-1/protocol.c:886-896 | a file after writes at offsets: its length is the furthest end and each byte that of the last write that has it |
| Restore.RestoreExact | version-1/protocol.c:871-902 | a list rebuilds every file of a length, whatever its stale blocks hold, if and only if each byte is settled by a cover block and no stale block reaches past the end; and if and only if it rebuilds a file of ones from stale blocks of twos |
| Restore.ShieldedInAnyOrder | version-1/protocol.c:871-902 | without stale blocks the order of installation is of no account |
| Restore.LastByteLost | version-1/covering.c:175-181 | when no block has the last byte, what comes back is always shorter |
| Restore.EnoughExact | version-1/protocol.c:871-902 | from cover blocks inside the file, the file comes back if and only if they have its last byte and each byte that they have not is zero |
| Restore.FilteredRestores | version-1/requests.c:101-107 | were only the cover stored, any order of installation would rebuild the file exactly if the cover is intact |
| Restore.FirstArchiveRestores | version-1/archive.c:213-217 | the list of a first archiving rebuilds all files of its length exactly for at most one block or whole blocks |
| Restore.ReusedListRestores | version-1/covering.c:130-187 | a list all of whose old blocks were found rebuilds all files exactly if the tail fits |
| CoverFailures.StaleOverwrites | version-1/covering.c:70-87 | a stored list of two blocks and a file with which the update leaves a stale block that overwrites the cover: what comes back is given byte by byte; the cover alone would rebuild every file |
| CoverFailures.HoleAcrossEnd | version-1/covering.c:158-170 | a stored list of three blocks and a shorter file with which a hole is filled across the end and bytes inside the file are lost |
| IosBuffer.IosBuf.Grow | version-1/ios.c:127-143 | the queue stays the same; at most as many bytes move as it has |
| IosBuffer.IosBuf.Append | version-1/ios.c:148-160 | bytes go to the end of the queue; bytes moved over the buffer's life stay within twelve times those queued and consumed |
| IosBuffer.IosBuf.AppendIos | version-1/ios.c:164-170 | appends the queue of the source exactly if nothing was read from it |
| IosBuffer.IosBuf.Read | version-1/ios.c:184-195 | takes the first bytes of the queue, or nothing when it is shorter |
| IosBuffer.IosBuf.Reset | version-1/ios.c:199-204 | an empty queue |
| IosBuffer.IosBuf.SetBuffer | version-1/ios.c:331-339 | the queue is the data |
| IosBuffer.IosBuf.ReadInt32 | version-1/ios.c:286-295 | the big-endian number at the front leaves the queue |
| Framing.ReadAndDispatchOne | version-1/protocol.c:134-189 | 1 exactly if no whole packet waits, and then nothing is taken; otherwise at least five bytes and exactly the first packet |
| Framing.ReadAndDispatch | version-1/protocol.c:113-125 | takes the whole packets up to an unknown command, and always returns 0 |
| Framing.IoSend | version-1/io.c:103-118 | the packet is queued behind its length, or dropped once output is ignored |
| Framing.OutputHandler | version-1/io.c:175-219 | an empty queue is refilled first; what was written leaves the queue, the rest stays; the handler stays exactly if there was something to write and nothing failed, and when the main loop is left |
| Framing.InputHandler | version-1/io.c:232-282 | a chunk is appended, then dispatched together with what waited, unless input is ignored or the channel has hung up |
| StreamLaws.ChunkIndependent | version-1/io.c:206-269 | over all runs of partial writes and reads the dispatched packets are the first ones sent, unaltered; the rest is an incomplete packet; all arrive when all bytes do and all commands are known |
| StreamLaws.UnknownHoldsUp | version-1/protocol.c:113-125 | a whole packet behind an unknown command is left waiting |
| StreamLaws.SecondPacket | version-1/protocol.c:155-189 | of two packets that have arrived the second is dispatched exactly if the command of the first is below 7 |
| Channels.MessagesArrive | version-1/io.c:103-282 | over all runs of partial writes and reads, what is dispatched decodes to the first of the messages sent, no whole packet waits, and all have arrived when no bytes are under way |
| Channels.ChannelStep | version-1/protocol.c:268-374 | step by step the byte stream is the first-in first-out channel of messages that the protocol assumes |
| WorkTickets.Output.Send | version-1/io.c:103-118 | the bytes waiting, behind those written, stay the packets of all messages sent |
| WorkTickets.Output.Drain | version-1/io.c:175-219 | so they do when bytes are written |
| Messages.MessageRoundTrip | version-1/protocol.c:268-374 | every message is decoded to itself |
| Layouts.PacketLayout | version-1/protocol.c:268-374 | each field of each packet lies where the source appends it, in numbers with the highest byte first |
| Layouts.EntryLayout | version-1/block.c:97-108 | each field of an entry of a stored list |
| Layouts.ListLayout | version-1/requests.c:90-109 | the number of entries and the place of each |
| Layouts.RecordLayout | version-1/remote.c:36-55 | a record: version, 16 bits of the length, the data |
| Layouts.SummaryLayout | version-1/summary.c:88-105 | each field of a summary |
| Layouts.HelloLayout | version-1/protocol.c:225-243 | each field of the greeting |
| Layouts.HelloAckLayout | version-1/protocol.c:247-264 | each field of the answer to it |
| Messages.ListRoundTrip | version-1/requests.c:90-128 | a list is read back with every field that is kept |
| Messages.BlockListToStream | version-1/requests.c:90-109 | the loop writes the encoding of the list, 4 and 39 bytes for each block |
| Messages.BlockListFromStream | version-1/requests.c:113-128 | the loop reads the list |
| Messages.BlockToStream | version-1/block.c:97-108 | writes the fields of one block in order |
| Messages.BlockFromStream | version-1/block.c:132-147 | reads them back |
| Messages.RecordExact | version-1/remote.c:36-96 | a stored record gives back its payload exactly below 65536 bytes, and otherwise a beginning |
| Records.SummaryRoundTrip | version-1/summary.c:88-129 | a summary is read back with every field |
| Records.SummaryToStream | version-1/summary.c:88-105 | writes the fields in order |
| Records.SummaryFromStream | version-1/summary.c:109-129 | reads the fields and leaves the rest of the stream |
| Records.HelloRoundTrip | version-1/protocol.c:225-243 | a greeting is read back, its message exactly if it is not empty |
| Records.HelloAckMisread | version-1/protocol.c:401-416 | how the message of the answer is read back, for every message: NULL, failure or bytes from its length on, according to the id; below 2^24 bytes that is never the message |
| ProtocolRuns.StepKeeps | version-1/protocol.c:678-992 | every step of client, server or walk keeps the invariant of the whole system |
| ProtocolRuns.RunKeeps | version-1/protocol.c:678-992 | so does every run, over sessions that may be cut short anywhere |
| ProtocolTickets.SendTicket | version-1/workticket.c:307-345 | a turn of the sending loop keeps what the ticket promises |
| ProtocolTickets.AckedTicket | version-1/protocol.c:705-744 | an acknowledgement either leaves others under way, or it was the last one, all blocks are stored and the list goes out |
| ProtocolTickets.RequestTicket | version-1/workticket.c:351-375 | a turn of the requesting loop keeps what the ticket promises |
| ProtocolTickets.InstalledTicket | version-1/protocol.c:834-902 | a received block is installed in the order of the list, an answer that holds nothing changes nothing, and the count never tells that it was the last |
| ProtocolLaws.CountExact | version-1/workticket.c:307-345 | the count of an archiving ticket is the number of its blocks sent and not acknowledged, so it never runs below zero |
| ProtocolLaws.RoutingExact | version-1/protocol.c:705-755 | every acknowledgement finds its ticket; id zero means the list exactly if the ticket waits for that; otherwise one unacknowledged block is found and the server stores it |
| ProtocolLaws.ListOnlyWhenStored | version-1/protocol.c:736-741 | a ticket that waits for its list has exactly that list under way, and each of its blocks stored under its remote id |
| ProtocolLaws.ListUnderWay | version-1/protocol.c:736-741 | a list is under way for a file only when its ticket waits for that |
| ProtocolLaws.ListSentOnce | version-1/protocol.c:736-741 | over any run, the list is not sent again until a new ticket for the file has come |
| ProtocolLaws.SummariesLead | version-1/workticket.c:219-240 | every summary leads to a stored list that decodes to the blocks of its file, all stored |
| ProtocolLaws.ChecksumsSaved | version-1/covering.c:213-240 | an archived list has the checksums by which its blocks are found again: for new blocks the weak checksum of their part of the file, for whole blocks found again its compared half, for all the strong one |
| ProtocolLaws.ByeOnce | version-1/protocol.c:745-752 | in every state goodbye has been said, once, exactly if no ticket is left and the walk is over |
| ProtocolLaws.ByeExact | version-1/protocol.c:745-752 | every step of a session puts a goodbye on the way if and only if the last ticket is gone, or the walk over, by it and the work was not over before |
| ProtocolLaws.WalkEnds | version-1/archive.c:90-99 | the walk may be over at any time; goodbye is said then exactly if no ticket is left, and nothing else changes |
| ProtocolLaws.ServerExact | version-1/protocol.c:678-801 | each message is answered by one, for the same file and block: data is stored under the next id, a request is answered from what is stored, as far as 16 bits tell |
| ProtocolLaws.RestExact | version-1/protocol.c:736-741 | at rest exactly the archiving tickets without a new block are left over, with count zero, besides tickets whose old list is taken for missing; files with a summary had a new block |
| ProtocolLaws.CutRecordsStop | version-1/remote.c:78-96 | an extraction is at rest only if its list, and each block when the list came, has a record below 65536 bytes or of a multiple of that |
| ProtocolLaws.FirstTimeStuck | version-1/archive.c:213-217 | of files archived for the first time exactly the empty ones have no new block |
| Progress.StepGoesDown | version-1/workticket.c:261-301 | every step but a ticket's arrival or a new session lowers the measure, and by one more for each id that it hands out: unsent, in flight, list pending |
| Progress.RunsEnd | version-1/workticket.c:261-301 | between arrivals a run has no more steps than the measure says |
| Rest.CanMove | version-1/protocol.c:705-910 | from any reached state with numeric room, no record asked for being cut off, a step can be taken until the state is at rest; that no message finds the client without its ticket or block, and that an asked-for list can be sorted and completed, follows from the invariant |
| Rest.RoomKept | version-1/workticket.c:261-301 | every such step leaves room |
| Rest.MaximalRunRests | version-1/workticket.c:261-301 | steps that cannot go on have ended at rest, after no more than the measure says |
| Rest.SomeRunRests | version-1/workticket.c:261-301 | from any reached state with room there are steps that come to rest |
| WorkTickets.WorkTicket.FindById | version-1/workticket.c:196-212 | the first block with the id, or none |
| WorkTickets.WorkTicket.SendBlocks | version-1/workticket.c:307-345 | a call takes so many allowed turns of the protocol, stops when the list is through or as soon as the queue is long enough, and takes a turn unless it is |
| WorkTickets.WorkTicket.SendBlockRequests | version-1/workticket.c:351-375 | likewise for requests |
| WorkTickets.WorkTicket.Acknowledge | version-1/protocol.c:733-738 | enters the id, counts down, tells whether it was the last |
| WorkTickets.WorkTicket.InstallBlock | version-1/protocol.c:853-902 | counts down, and writes the block at its offset into the shared file unless its digest shows an imposter |
| WorkTickets.WorkTicket.StartArchive | version-1/protocol.c:954-972 | the new cover with its ids; ready to send from the beginning |
| WorkTickets.TurnTaken | version-1/workticket.c:318-341 | the body of the sending loop is a turn of the protocol |
| ClientSide.SendTurnsKeep | version-1/workticket.c:307-345 | a whole call of the sending loop keeps the invariant |
| ClientSide.RequestTurnsKeep | version-1/workticket.c:351-375 | a whole call of the requesting loop keeps the invariant |
| ClientSide.BackupClient.AcceptBlockAck | version-1/protocol.c:724-744 | the in-place handler does what the protocol's step for an acknowledged block says |
| ClientSide.BackupClient.AcceptListAck | version-1/protocol.c:745-752 | likewise for an acknowledged list: summary, removal, goodbye |
| ClientSide.BackupClient.AcceptGetAckBlock | version-1/protocol.c:834-867 | likewise for a received block; exits exactly if data for a known block does not open |
| ClientSide.BackupClient.AcceptGetAckBlockList | version-1/protocol.c:910-944 | likewise for a received list, which is decoded and handed on to archiving or extraction; exits exactly if data does not open |
| ClientSide.BackupClient.DoWork | version-1/workticket.c:261-301 | nothing when the queue is long or the ticket waits, otherwise turns of its loop, at least one when the queue is short |
| ClientSide.BackupClient.ArchiveNewFile | version-1/archive.c:178-243 | a new file enters with its completed list |
| ClientSide.BackupClient.AskFor | version-1/extract.c:108-136 | a ticket enters that asks for the stored list; an extraction opens, and so empties, the shared file |
| ClientSide.BackupClient.OpenRecovered | version-1/extract.c:126 | opening the shared file is the protocol's opening: empty, with a new log |
| ClientSide.BackupClient.PlaceBlock | version-1/protocol.c:871-902 | installing in place is the protocol's placing of a block of any ticket in the shared file |
| ClientSide.BackupClient.EndOfWalk | version-1/archive.c:90-99 | the walk is over; goodbye if nothing is left |
| ClientSide.BackupClient.Insert | version-1/workticket.c:100-114 | one ticket more, the others unchanged |
| ClientSide.BackupClient.Remove | version-1/workticket.c:120-128 | one ticket less, the others unchanged |
| ServerSide.BlockStore.ArchiveAdd | version-1/remote.c:36-55 | the payload is stored under a fresh id that is not zero |
| ServerSide.BlockStore.ArchiveFetch | version-1/remote.c:59-96 | what was stored, as far as its 16-bit length tells, or nothing |
| ServerSide.BlockStore.AcceptPutBlock | version-1/protocol.c:678-700 | stores and acknowledges with the new id |
| ServerSide.BlockStore.AcceptGetBlock | version-1/protocol.c:760-801 | answers with the data, or with none for an unknown id |
| EndToEnd.Recovered | version-1/protocol.c:834-902 | at rest the shared file is what installing the blocks written since it was last opened makes, those of other files being stale ones |
| Recovery.FileKeeps | version-1/protocol.c:871-902 | every step keeps: the shared file is what the blocks written since it was opened make, each as its ticket lists and the server stores it, and undisputed these are the blocks of the list that were given back, in order |
| Recovery.FileRun | version-1/extract.c:108-136 | so does every run, over sessions that may be cut short anywhere |
| Recovery.BlockWrites | version-1/protocol.c:834-902 | an answer for a block writes its data at its offset in the shared file if the digest is right, and otherwise nothing |
| Recovery.OthersLeave | version-1/extract.c:126 | no other step touches the shared file, but that each extraction empties it |
| EndToEnd.FileComesBack | version-1/protocol.c:678-902 | an extracted file is back, byte for byte, if the blocks written since the shared file was opened shield it from stale blocks and those of other files; if they do not, a file of that length and contents of those blocks are lost |
| EndToEnd.UndisputedList | version-1/protocol.c:834-902 | undisputed, the blocks written are those that the server gives back of the archived list: the whole list if all records are below 65536 bytes, none if the list is taken for missing |
| EndToEnd.OnlyFile | version-1/extract.c:108-136 | the only file extracted in a session is undisputed |
| EndToEnd.LastWriterWins | version-1/extract.c:126 | when the last block written covers the whole of a file, the shared file begins with that file |
| EndToEnd.ReusedFileComesBack | version-1/covering.c:130-187 | undisputed and with all old blocks found: the file exactly if the blocks given back are enough; with all records below 65536 bytes, if and only if the tail fits; a shorter one whenever the tail does not fit |
| EndToEnd.FirstArchiveComesBack | version-1/archive.c:213-217 | undisputed and with no old blocks: the file exactly if the blocks given back are enough; with all records below 65536 bytes, exactly for at most one block or whole blocks |
| Sessions.ArchivingEnds | version-1/protocol.c:736-752 | undisturbed archiving ends with the summary written, or with a ticket without new blocks, or with an old list taken for missing; for a new file the second exactly if it is empty, and the third never |
| Sessions.BackupComesBack | version-1/protocol.c:678-902 | archived for the first time in one session and extracted undisputed in a later one, as when it is the only file extracted, a file comes back byte for byte exactly if the blocks given back are enough; with all records below 65536 bytes, exactly for at most one block or whole blocks |
| Sessions.LaterBackupComesBack | version-1/protocol.c:678-902 | archived again and extracted in a later session, a file comes back byte for byte if the blocks written shield it; undisputed and with all records below 65536 bytes they do exactly if the planned list does, and with all old blocks found it comes back exactly if the tail fits |
| TwoFiles.ShortFile | version-1/archive.c:213-217 | a file archived for the first time that is at most one block long has a list of one block with the whole of it |
| TwoFiles.OneOfMany | version-1/extract.c:126 | of any number of extracted files of one block and the same length, the shared file is one of them |
| TwoFiles.OneOfTwo | version-1/extract.c:126 | of two such files one comes back, and both exactly if they are the same |
| TwoFiles.TwoFilesRun | version-1/extract.c:108-136 | for any two such files a run that archives both, extracts both in the next session and comes to rest, with the shared file one of them |
| TwoFiles.OneLost | version-1/extract.c:126 | a run in which everything comes to rest and a file has not come back |
| WorkList.WorkListBound | version-1/archive.c:135-136 | while archiving there are never more than 21 tickets |
| WorkList.LastToEnter | version-1/archive.c:135-136 | a file that may enter does so exactly up to twenty tickets |
| WorkList.WalkStops | version-1/workticket.c:406-412 | once more than twenty files have no new block, no file enters and goodbye is not said for the rest of the session, whatever happens in it |
| WorkList.RestIsFinal | version-1/archive.c:135-136 | at rest with a full work list nothing can happen but the end of the walk or another session |
| Sessions.ExtractNeverEnds | version-1/protocol.c:856-902 | an extracting ticket is never removed and goodbye is never said |
| WindowCache.Map.MapPtr | version-1/fileio.c:148-232 | the region asked for, clipped at the end, lies in the window; the tracked position of the descriptor stays true; a region that the window has costs no read, otherwise the window begins at a chunk, is as long as the source says, and only what the old one had not is read |
| WindowCache.Map.Slide | version-1/fileio.c:187-227 | the reused bytes are the right ones and not read again; there is always something to read |
| WindowCache.RegionIsSlice | version-1/fileio.c:148-232 | with an unchanged file the region is that part of the file |
| SparseWriter.ZeroRuns | version-1/fileio.c:72-73 | the longest runs of zeros at both ends, which meet only in a buffer of zeros |
| SparseWriter.Sparse.WriteSparse | version-1/fileio.c:67-97 | whatever part is written, the file holds the buffer as far as the result says; a failure may go further over zeros; zeros alone and those at the end are not written, and a last byte of zero is remembered |
| SparseWriter.Sparse.WriteFile | version-1/fileio.c:101-123 | a complete call leaves the file holding all that was written, a hole at its end remembered |
| SparseWriter.Sparse.SparseEnd | version-1/fileio.c:56-64 | the file has exactly what was written, its length included, if and only if something was or no file before ended in zeros |
| PathNames.CleanFname | version-1/util.c:102-142 | the loop ends, with the fixed point of its four rewritings |
| PathNames.CleanKeeps | version-1/util.c:102-142 | for every path the result is clean, has the same components, and is absolute if the path was |
| PathNames.SingleSlashesStay | version-1/util.c:102-142 | a relative path without a double slash stays relative |
| PathNames.LeadingDotExact | version-1/util.c:127-132 | behind one leading dot, the path turns absolute exactly with more than two slashes |
| LeadingDots.RelativeExact | version-1/util.c:102-142 | for every relative path: it turns absolute if and only if the groups of a dot and slashes in front let it escape |
| Communicators.QueuedBlock.CompletionAction | src/block.cpp:135-144 | all tokens run, in the order of attaching, and none is left |
| Communicators.Communicator.CommBatch | src/communicate.cpp:146-179 | the first blocks, at most a batch, are written in order and then their tokens run; the others are untouched |
| Communicators.StepKeeps | src/communicate.cpp:65-179 | every interleaved action keeps: pushed is completed, staged and queued, in order; tokens run after the write |
| Communicators.WrittenInOrder | src/communicate.cpp:146-179 | at any time what is written is a beginning of what was pushed, and what ran on a block a beginning of what was attached |
| Communicators.WaitExact | src/communicate.cpp:92-112 | when waiting joins, all blocks are written if and only if the last batch that the worker took was not smaller than the queue and no block was pushed after it |
| Communicators.WaitDone | src/communicate.cpp:92-112 | when waiting joins, every block pushed before the queue was seen empty is written, and its tokens have run |
| Communicators.WaitSuffices | src/communicate.cpp:92-112 | when no block is pushed from the look at the empty queue to the joining, all blocks are written and their tokens have run |
| Communicators.NeverGivesUp | src/communicate.cpp:92-112 | in every state of every run waiting has not given up: the worker is needed until the queue has been seen empty, so that waiting ends by joining only |
| Delivery.WorkerDelivers | src/communicate.cpp:128-179 | from any such state the worker alone writes all that was pushed, in order, and runs all tokens that were attached before |
| Delivery.WaitEnds | src/communicate.cpp:92-112 | from any reached state in which the queue has not been seen empty there are steps by which waiting ends with everything written |
| Communicators.LeftBehind | src/communicate.cpp:92-112 | a concrete interleaving in which a block is pushed too late |

## Left out

- RollingIndex.MakeHashSub: the two block buffers are values that change places, made anew in each pass; the static storage of the original, with what an earlier pass left in it, is not modelled.
- WeakChecksum.WcsumGet: a last word that cannot be read to its end, for which the original reads past the buffer.
- IosBuffer.IosBuf.Append: wrap-around of 32-bit lengths and the rounding of the growth factor 1.2 in floating point; the factor is exact here.
- Covering.SortByOffset: stands for the library sort; any order of blocks at the same offset is allowed for wherever a sorting is used.
- ClientSide.BackupClient.AcceptGetAckBlockList: requires that sorting, offsets and ids stay within 32 bits; the original wraps around or does not end beyond that.
- Signatures.Signature.FillHole: block lengths are 1 to 65535, as the 16-bit length of a block needs for the loops to end, and offsets stay below 2^32.
- Rest.CanMove: needs that data up to some size can be sealed and sent, and room for lists and ids, as `Rest.HasRoom` says in numbers.
- WindowCache.Map.MapPtr: offsets behind the end of the file, for which the original computes a negative length; errors of seek and read.
- PathNames.CleanFname: the bytes behind the terminator of the string.
- ClientSide.BackupClient.Insert: a second ticket for a file id; the work list is a map by file id, and the walk cannot bring two about with distinct names.
- WorkTickets.RecoveredFile.WriteBlock: writes go to the file at once; the buffers of several streams that are open on the same file, and errors of seek and write, are not modelled.
- Blocks of a list are values in a sequence; that the original shares them by pointer between the list and handlers is not modelled, nor are reallocation of arrays and `SCsum_match`'s static buffer.
- Sealing with a real cipher, SHA-1, zlib: parameters, as said above, and so is that zlib notices cut off data; builds without either are not modelled. A session key and the login that comes before the protocol.
- The client's local records of blocks, beyond which blocks `cover_save_local` records: `db_block_add` and `db_block_fetch` write and read different layouts, and nothing on the way of a backup reads them.
- The main loop, watches and nested turns of it: any interleaving of handlers is allowed instead. Time, file metadata and the tests for unchanged files.
- Berkeley DB: stores are maps and counters.
- The directory walk, option parsing, logging, interactive creation of an archive, signals and forks.
- Two threads that wait for one `Communicator`; transports.
- `src/` beside the communicator and the completion tokens.
