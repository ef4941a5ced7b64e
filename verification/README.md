# Verification of a master/slave file transfer system

The system is an FTP-like service in C: clients download, upload and remove
files on slave servers, a master sends each client to a slave, interrupted
downloads are resumed, and slaves replay removals and uploads to each other.
This project models its code in Dafny and proves what it promises.

## How the model is built

| file | part of the system |
|---|---|
| `Bytes.dfy`, `Text.dfy`, `Wire.dfy` | bytes and C strings; decimal numbers and the three textual payloads; requests, responses, headers and blocks as they lie in memory |
| `Rio.dfy` | buffered and unbuffered robust I/O, on descriptors whose system calls follow an arbitrary plan of short, interrupted and failing calls |
| `Transfer.dfy` | sending and receiving a file by blocks |
| `Names.dfy`, `Download.dfy`, `DownloadClient.dfy` | resumable download: the local names, a state machine with one step per side effect on the disk and one connection per process, and the client's code, which logs its steps as a run of that machine |
| `Losses.dfy`, `Stale.dfy`, `Stops.dfy`, `Stranded.dfy` | where that machine fails its users: received work removed, answers read by the wrong session, what a session that stops leaves to the next `get`, downloads a start does not resume |
| `Paths.dfy`, `FileSystem.dfy` | path resolution in both modes, parent directories, opening and removing files |
| `Session.dfy`, `LockStep.dfy`, `Slave.dfy` | a connection message by message, the same connection byte by byte, and the slave's code for one request |
| `Replication.dfy`, `EndToEnd.dfy`, `Coherence.dfy`, `Logs.dfy` | sessions as logged events and their replay, the replay as sessions on the wire, the walk over peers and log, the log as a linked list |
| `Master.dfy` | round-robin choice of a slave and the address sent to the client |

Loops and in-place updates of the C code are methods proved against
specification functions; the protocol-wide statements are lemmas about those
functions. Both ends of a transfer have the same byte order; requests are
proved correct for all four combinations.

## What the code does not do

Some expectations, the repository's own among them, are false of the code.
Each is stated exactly, with the condition under which it does hold.

- *A download leaves the earlier file or the server's file.* True while every
  session starts on a connection with nothing left on it (`Download.CrashSafe`),
  which a run ensures by never stopping a session while blocks follow
  (`Stale.TidyIsGuarded`). But the client runs its start-up scan and all its
  commands on one connection, and a session that finds `.part` too short, cannot
  make a directory or fails locally leaves its blocks there
  (`Stale.UntidyLeaves`). The next `get` takes them for its own header: from a
  fresh disk, for every length above one block, a run ends with an empty file in
  place and a reported success (`Stale.UnguardedUnsafe`, `Stale.FailureUnsafe`).
  For a start that finds no other entry to resume, followed by a `get`, with no
  failure at all, the file is delivered whatever its content if and only if
  `.part` reaches the recorded offset or the offset is the file's size
  (`Stale.StartThenGetExact`). For any session that stops of itself, a `get`
  after it delivers, whatever the content and whatever its reader held, if and
  only if the session had read its last block (`Stops.StopThenGetExact`).
- *Interrupted downloads are resumed at the next start* (README.md:137). With a
  working disk and connection the start puts the file in place if and only if its
  meta file is there, lies directly in the scanned directory, records a positive
  offset, and `.part` reaches it (`DownloadClient.Client.AutoResumeDownloads`).
  A relative path with a directory in it is not found by the scan
  (`Names.ListedExact`, `Names.DeeperNotListed`, `Stranded.UnlistedUntilGet`); a
  meta file that records 0 is removed (`Stranded.ZeroForgotten`); and a crash
  between the final rename and the removal of the meta file makes every later
  start fail with OFFSET_ERROR_R until a `get` (`Stranded.CrashStrands`,
  `Stranded.StrandedUntilGet`).
- *An interruption loses at most one block.* True if and only if no resumed
  session with something in `.part` is cut before its header, refused with
  PATH_ERROR_R or stopped by a local failure (`Losses.FrugalExact`,
  `Losses.FrugalWork`): PATH_ERROR_R is 1, which is also what a missing header
  and every local failure return, and each of these three deletes all that was
  received (`Losses.WaysToLose`).
- *No byte is lost between commands.* With no local call failing but those
  named here, true if and only if every transfer with blocks to send finds a
  receiver that reads them: an upload a destination the slave can open, a
  download names that fit the client's buffers, directories the client can make
  and a `.part` that reaches its start (`LockStep.FramingExact`,
  `LockStep.DownloadsLose`). Slashes in front of a name, which the slave drops,
  are enough to fill those buffers (`LockStep.SlashesLose`). A regular file above
  the last local directory makes the client stop like this; one in the place of
  that directory is taken for a directory, and the failing `open` after it ends
  the process (`DownloadClient.Client.OpenPartFile`).
- *Replicas converge.* For any set of removals and uploads by paths without
  "..", the slaves' files stay equal and every replay keeps in step with its
  peer if and only if two things hold of the files that these requests can
  store: none that can be removed is a directory of another or has another as a
  directory; and the requests that name one of them fit the UPDATE payload
  exactly if they are removals or uploads by a name write mode accepts
  (`Replication.ReplicationExact`). `put ./a` by a client that has no such file
  breaks the second: the slave refuses the name but has logged it, its replay
  finds the file and sends it, the peer refuses the name too and leaves the
  blocks, takes them for its next request, and gets nothing more of the log
  (`Replication.RefusedStops`, `EndToEnd.RefusedReplayStops`). With "..", a
  directory left behind on one slave decides what a removal removes there
  (`Replication.UpwardDiverges`).
- *The receiver never writes past the announced size.* True if and only if the
  size is at most 2^32 - 512 (`Transfer.SafeTotalIsExact`).
- *A connection's RM and PUT requests are logged.* As shipped `add` refuses an
  empty list, which its unit tests expect to work, so the log always stays empty
  and nothing is replicated (`Logs.ConnectionLog`). The replication results take
  the log as an argument, as `coherence` does, and assume it lists the session's
  RM and PUT requests.
- *A missing file is reported as not found.* `remove_file` returns 1 only when
  `unlink` finds no such file, and it calls `unlink` only on what `realpath` has
  found; so it returns 2 for a missing file, as for a directory
  (`FileSystem.Disk.RemoveFile`).
- *The client learns the slave's address.* True if and only if the port has at
  most four digits, since the master prints it into five bytes, and the address
  has no colon and fewer than 16 characters: the copy loop stops at 46, in a
  buffer of 16 (`Master.CredRoundTrip`).

## Model

| member | source | states |
|---|---|---|
| Text.ResumeRoundTrip | src/response.c:203-236 | parsing a printed RESUME payload gives back path and offset if and only if the path is non-empty, has no newline and fits the server's buffer |
| Text.MetaRoundTrip | src/client.c:128-156 | a meta file is read back as written if and only if the path has no newline, does not end in a carriage return and leaves room for its newline |
| Text.ReadMetaFile | src/client.c:111-157 | the reader with its in-place trimming loop computes exactly the parse the round trip is about, and fails on a missing file |
| Text.UpdateRoundTrip | src/response.c:611-629 | type and path of an UPDATE payload come back for every 32-bit type and every path, newlines included |
| Wire.SwapReverses | src/request.c:14-16 | the shifts and masks reverse the four bytes, undo themselves, and are what reading with the other byte order does |
| Wire.RequestRoundTrip | src/request.c:41-82 | for all four combinations of byte orders, the decoded request has the type encoded and the path, cut at 8191 characters |
| Wire.RequestStruct.SwapEndian | src/request.c:9-19 | only the type field changes, to its swapped value |
| Wire.RequestStruct.Encode | src/request.c:41-67 | the caller's structure becomes the tagged, zero-padded request |
| Wire.RequestStruct.Decode | src/request.c:69-82 | type and path are those the round trip speaks of; the structure is left swapped |
| Wire.ResponseRoundTrip | src/response.c:271-298 | text and error code of a response come back for every text that fits |
| Wire.HeaderRoundTrip | src/response.c:312-322 | the receiver reads the header that was sent |
| Wire.BlockRoundTrip | src/response.c:324-336 | the receiver reads the block that was sent |
| Rio.ReadN | src/csapp.c:557-576 | returns the first n bytes, fewer only at the end of the stream, under any plan without a hard failure; never loses a byte |
| Rio.WriteN | src/csapp.c:583-600 | all bytes are written, or -1 and a prefix of them after a hard failure |
| Rio.Reader.constructor | src/csapp.c:645-650 | a new reader has everything still to deliver |
| Rio.Reader.Read | src/csapp.c:613-639 | hands out the next bytes, none only at the end of the stream; data and what remains make up what there was |
| Rio.Reader.ReadNb | src/csapp.c:657-676 | the first n bytes of what remained, fewer only at the end of the stream |
| Rio.Reader.ReadLineb | src/csapp.c:683-703 | the line and its count in terms of the stream: a newline at index i < maxlen - 1 gives i + 1; an empty stream with room for a character gives 0; otherwise the count is the bytes handed out plus one, so a last line without its newline counts one too many |
| Rio.RunCalls | src/csapp.c:613-703 | any mix of the two calls on one reader, under any short or interrupted reads, answers exactly as the unbuffered stream and leaves the same rest |
| Transfer.SendDataBlock | src/response.c:324-336 | the whole block image or a prefix of it is written |
| Transfer.SendErrorHeader | src/response.c:179-192 | an error header is sent, or the client counts as disconnected |
| Transfer.SendBlocks | src/response.c:382-419 | the sending loop emits exactly the specified blocks from the offset, or a prefix of them |
| Transfer.SendFileByBlocksFromOffset | src/response.c:339-420 | for a file of any size: error header for a missing file or an offset past the 32-bit size, otherwise header and blocks; on a broken socket a prefix of that |
| Transfer.ReceiveTransferHeader | src/response.c:721-739 | the header is the first 8 bytes, or the stream had fewer |
| Transfer.ReceiveDataBlock | src/response.c:741-752 | the block is the next 516 bytes, or the stream had fewer |
| Transfer.ReceiveFileByBlocksToFd | src/response.c:793-840 | code, bytes written and bytes consumed are those of the specified loop on any stream at all; a failed write leaves a prefix |
| Transfer.ReceiveInvertsBlocks | src/response.c:382-407 | receiving what was sent from an offset writes exactly the rest of the file and stops exactly after the last block |
| Transfer.ReceiveOfCut | src/response.c:803-818 | a connection cut anywhere in the blocks is reported and leaves a prefix of the file |
| Transfer.ResumedIsTail | src/response.c:382-407 | the stream resumed at a block boundary or at the end is byte for byte the end of the full stream, short of exactly the earlier blocks |
| Transfer.BlockAt | src/response.c:324-336 | block i of a full transfer carries number i mod 2^16 and the bytes from 512 i |
| Transfer.ReceiverBound | src/response.c:803-824 | for totals up to 2^32 - 512 and any stream: nothing is written past the total, whole blocks are consumed, and success means exactly that the sizes of some leading well-sized blocks add up |
| Transfer.SafeTotalIsExact | src/response.c:803-824 | that bound on the total is necessary: above it a single block wraps the 32-bit sum |
| Transfer.TransferOver | src/response.c:339-420 | end to end, under any read, write and receive plans: the receiver gets exactly the bytes from the offset and its reader stands at what follows |
| Transfer.SendContent | src/response.c:428-444 | a text is sent exactly as a file holding it would be |
| Transfer.ReceiveContent | src/response.c:1004-1028 | what was sent is consumed to its end unless a write fails; it comes out whole when each block is taken in one write, and never altered otherwise than by missing bytes |
| Transfer.WriteAllFd | src/utils.c:58-73 | all bytes are written, or a prefix and a failure |
| Transfer.HeaderAcrossOrders | src/response.c:301-310 | between different byte orders the total decoded is right if and only if the receiver is little-endian or the number is symmetric |
| Transfer.BlockSizeAcrossOrders | src/response.c:741-752 | between different byte orders a block size is right if and only if its two bytes are equal |
| Names.NamesApart | src/client.c:30-100 | the four local files of a download are distinct, their names fit, and of the partial ones the meta file alone has the suffix the scan looks for |
| Names.ListedExact | src/client.c:295-310 | for a relative path without "." and "..", the meta file is an entry of the scanned directory if and only if the path has one component |
| Names.BareListed | src/client.c:305-310 | a bare name is met by the scan, under its own name and the suffix |
| Names.DeeperNotListed | src/client.c:295-310 | a relative path with a directory in it is never met |
| Names.LocalPlaces | src/client.c:30-48 | where the three kinds of name lead: a leading slash to the root, a leading tilde to a directory of that name where the client runs, any other name below "clientdir" |
| Download.StepKeeps | src/response.c:910-1002 | every side effect, failure, crash, restart and session start keeps the whole invariant, when sessions start on an empty connection |
| Download.CrashSafe | src/response.c:910-1002 | for every interleaving in which sessions start on an empty connection, .part is a prefix of the server's file and the final path holds its earlier content or exactly that file; after a completed rename, the file |
| Download.MetaInvariant | src/response.c:949-1002 | a recorded offset is a block boundary or the size, and .part covers it with at most a block to spare, except after the final rename or inside a cleanup |
| Download.OffsetCheckFires | src/response.c:955-958 | a resumed session can find .part too short only in those two windows |
| Download.WorkConserved | src/response.c:960-987 | bytes written = bytes in .part + truncated + unlinked + completed files; truncations lose at most a block per interruption |
| Losses.FrugalExact | src/client.c:274-275 | from no state of a run does carrying on remove received bytes, if and only if none of its steps cut a resumed session before its header, refused it with PATH_ERROR_R or failed it locally with something in .part |
| Losses.FrugalWork | src/response.c:960-987 | in such a run the bytes written up to the first completion are the size plus what truncations discarded, at most a block per interruption |
| Losses.WaysToLose | src/client.c:274-275 | from every state with progress to resume, each of the three causes has a run that removes .part and .part.meta with all they held |
| Stale.TidyIsGuarded | src/response.c:941-963 | if no session stops while blocks follow, every session starts on an empty connection |
| Stale.UntidyLeaves | src/response.c:955-958 | a session that stops while blocks follow leaves them, unless its reader's buffer held them all |
| Stale.UnguardedUnsafe | src/client.c:466-532 | for every file of zeros longer than a block, a run from a fresh disk whose last get alone starts on a used connection ends with an empty file in place |
| Stale.FailureUnsafe | src/response.c:941-943 | the same after a get whose directories could not be made |
| Stale.GetDelivers | src/client.c:521-532 | a get on an empty connection can be run to its end, and every way it goes when nothing fails puts the server's file in place and leaves the connection empty |
| Stale.StartThenGetExact | src/client.c:469-532 | whatever the content, for a given size, .part length and offset, a start with no other entry and a get can be run to their ends and deliver, and put nothing else in place, if and only if .part reaches the offset or the offset is the size |
| Stale.SessionEnds | src/response.c:910-1002 | from every point of a session that goes well there is a way to its end |
| Stops.StopThenGetExact | src/response.c:941-993 | for a session stopped by the size check or a failing local call: a get after it and its cleanup delivers, for every content and every state of the stopped reader's buffer, if and only if the session had read its last block |
| Stops.StopAtEnd | src/response.c:960-993 | a session that stops after its last block leaves an empty connection, on which a get delivers |
| Stops.StaleGet | src/client.c:521-532 | on a connection that carries eight zeros a get does not deliver: it ends with an empty file or stops with OFFSET_ERROR_R |
| Stranded.CrashStrands | src/response.c:991-995 | a crash between the final rename and the removal of the meta file strands a non-empty download |
| Stranded.StrandedUntilGet | src/client.c:290-329 | from a stranded state no sequence of events without a get completes a download or touches the final file, whatever the connection carries |
| Stranded.UnlistedUntilGet | src/client.c:295-310 | a download the scan does not meet stays as it is until a get, however often the client starts |
| Stranded.ZeroForgotten | src/client.c:319-323 | a download killed before its first block is recorded loses its meta file at the next start and is not resumed |
| DownloadClient.AnswerServes | src/client.c:234-249 | an honest slave serves the request the client sends from exactly the offset asked for |
| DownloadClient.Client.WritePartMeta | src/response.c:135-170 | temp file, text, rename: success records the offset, and every cut of it is a step of the machine |
| DownloadClient.Client.EnsureParentDirs | src/response.c:95-125 | a regular file above the directory of .part makes it fail every time; one in the place of that directory passes; otherwise it fails only when a call does |
| DownloadClient.Client.OpenPartFile | src/response.c:944-947 | .part is there, as long as it was; a failure, which a regular file in the place of the directory is, ends the process |
| DownloadClient.Client.WriteBlock | src/response.c:810-813 | the block is appended whole, or partly after a failure or death |
| DownloadClient.Client.TakeBlock | src/response.c:804-809 | on any stream: CLIENT_DISCONNECTED_R for fewer than 516 bytes, TYPE_ERROR_R for a size above 512 or a 32-bit count past the total, otherwise the block; a refused block leaves the rest of the connection unread |
| DownloadClient.Client.ReceiveBlocks | src/response.c:803-824 | on any stream the loop is a run of the machine, and its code, when no local call fails, is that of the specified receive loop; on the file's own blocks it succeeds when nothing fails |
| DownloadClient.Client.FinishDownload | src/response.c:960-1001 | after guarded starts success means the final file is the server's and .part is gone; the whole blocks are taken and the connection left empty when nothing fails |
| DownloadClient.Client.TakeHeader | src/response.c:923-933 | on any stream: 1 for fewer than 8 bytes, the header's own error if it carries one, OFFSET_ERROR_R for an offset past the announced total, otherwise the total; the whole answer of the slave passes |
| DownloadClient.Client.ReceiveFileByBlocksResume | src/response.c:910-1002 | the session on whatever the connection carries, for any disk behaviour: with nothing failing its code is, in the code's order, 1, the header's error, OFFSET_ERROR_R, or that of the receive loop, and only 0 touches the final file; on the slave's whole answer it succeeds if and only if .part reaches the offset; 1 when a directory cannot be made, and the end of the process when a regular file is in the place of the last one |
| DownloadClient.Client.RemovePartialFiles | src/client.c:164-176 | .part goes first and .part.meta after it, or the process dies between |
| DownloadClient.Client.PerformDownload | src/client.c:225-283 | the session on the process's one connection, after what is already there, with a reader of its own: the same codes for what arrives of any answer, whole, cut or a refusal; the cleanup exactly after a resumed session that returned 1 |
| DownloadClient.Client.MaybeGetResumeOffset | src/client.c:184-215 | the offset the machine's get starts from |
| DownloadClient.Client.GetFile | src/client.c:521-532 | whatever earlier sessions left on the disk, a get on an empty connection with nothing failing downloads the file and leaves no partial files and nothing on the connection; refused, it returns exactly the slave's code, and the partial files go only after a resumed PATH_ERROR_R; cut before the header it returns 1, inside the blocks CLIENT_DISCONNECTED_R |
| DownloadClient.Client.AutoResumeEntry | src/client.c:313-325 | a meta file recording 0 is removed; otherwise the download is resumed, and completes if and only if .part reaches the offset when nothing fails |
| DownloadClient.Client.AutoResumeDownloads | src/client.c:290-329 | the pass over the directory entries: with nothing failing the file is put in place if and only if its meta file is listed, records a positive offset and .part reaches it |
| DownloadClient.Client.RunActions | src/client.c:466-532 | any sequence of starts with their scans, kills, gets and other commands is a run of the machine, each process on one connection, so its theorems hold of the code |
| Paths.SlashesDoNotMatter | src/path.c:127-150 | repeated slashes, leading or inside, do not change the components |
| Paths.GetAbsPath | src/path.c:63-160 | the cursor loop accepts exactly the paths with a component, no trailing slash, no "." or ".." and fitting lengths, and builds the root followed by a slash and each component |
| Paths.ResolutionNormal | src/path.c:93-157 | the normal form has the same components and resolves to the same path; it is accepted again |
| Paths.ContainmentExact | src/path.c:15-25 | for canonical paths and roots other than "/", the string test is the prefix relation on components |
| Paths.RootExcluded | src/path.c:15-25 | for the root "/" the test fails on every path below it |
| Paths.ResolvedInside | src/path.c:124-150 | every resolved path passes the containment test |
| FileSystem.ModesAgree | src/path.c:75-90 | a path accepted in write mode names the same file in existing mode |
| FileSystem.LeadsExact | src/path.c:75-90 | existing mode leads to something that is there if and only if the walk of the path's components leads there and each of them, ".." included, is looked up in a directory |
| FileSystem.NamesDirectory | src/path.c:75-90 | in existing mode the empty path, ".", ".." and every path that ends in a slash or in one of these two names no file, whatever is stored |
| FileSystem.Disk.EnsureParentDirs | src/utils.c:19-49 | the in-place loop succeeds exactly when the name fits and no file stands above the last directory; it then has made every missing directory and nothing else, and a failure changes nothing |
| FileSystem.Disk.OpenFileW | src/utils.c:94-114 | opens exactly when the path is accepted, no directory is in its place and no file above it; then the file is empty and every ancestor is a directory, otherwise nothing has changed |
| FileSystem.Disk.Unlink | src/response.c:461-473 | the file is removed, or the error says directory, no entry, or no directory above |
| FileSystem.Disk.GetExistingPath | src/path.c:75-90 | existing mode gives the canonical path of exactly what exists where the candidate leads, if the candidate fits; everything so found passes the containment test |
| FileSystem.Disk.RemoveFile | src/response.c:455-474 | removes exactly the file named, by a path with or without "..", and returns 0, or returns 2 and changes nothing; 1 is never returned |
| Session.ServedFramed | src/response.c:721-752 | what is sent for a file is read as one message, no more and no less, if and only if its reader goes past the header or nothing follows it |
| Session.BodyStored | src/response.c:852-894 | the body of an upload, as sent, is stored whole or refused with the right code |
| Session.DownloadCodes | src/response.c:921-986 | the code of a download for every message and destination, in the code's order: header missing, refused, offset past the total, a local name that does not fit or a directory that cannot be made, .part too short, the temporary name, then the receive loop |
| Session.RemovalAnswered | src/response.c:534-564 | the text answered to RM, in full: it begins with "File " if and only if the named file was there, and then it is gone; otherwise nothing has changed |
| Session.ForwardedRemoval | src/response.c:631-652 | the same removal when a slave forwards it, with its texts and error codes |
| Session.UploadAnswered | src/response.c:566-602 | the text and error of the answer to PUT and to a forwarded upload, in full, and exactly when the file is stored |
| Session.TrackedFramed | src/client.c:519-633 | at every message of a guarded session the receiver's reads end exactly with the message, client and slave stopping at a header where the code does |
| Session.DeliverTracks | src/response.c:476-717 | delivering messages one by one performs the commands one by one, each as an atomic operation with its result |
| LockStep.LockStepFraming | src/request.c:21-34 | under any sizes and interleaving of writes and reads, no throw-away reader loses a byte; before each request both channels and buffers are empty and the slave has decoded and done exactly the earlier commands |
| LockStep.FramingExact | src/response.c:880-883 | the guard is exact: no schedule loses a byte if and only if every transfer with blocks to send finds a slave that can open the destination, or a client whose local names fit, which can make its directories and whose .part reaches the start |
| LockStep.DownloadsLose | src/response.c:938-974 | a download whose local names do not fit, whose directories cannot be made or that finds .part too short has a schedule that loses bytes |
| LockStep.SlashesLose | src/path.c:36-47 | a name behind so many slashes that the temporary meta file's name does not fit is served by the slave and loses bytes at the client |
| LockStep.SessionCompletes | src/client.c:473-657 | no deadlock: from every reachable state some moves finish the session with all its effects and results |
| Slave.Worker.ReadRequest | src/request.c:21-34 | the request is the first 8200 bytes, and what a fresh reader can lose behind it is at most one buffer |
| Slave.Worker.ReceiveToPath | src/response.c:852-894 | on any stream, code and files are those of the specified upload, a missing header changing nothing |
| Slave.Worker.TakeUpload | src/response.c:566-602 | the ready text, the transfer, then the outcome, unless the client is gone |
| Slave.Worker.OutcomeIs | src/response.c:588-597 | the outcome of an upload in explicit texts: nothing to a client that is gone, success, or failure with its code |
| Slave.Worker.SendServerResponse | src/response.c:476-717 | replies sent and files changed are those of the message-level slave for every request but LS; the replies to RM, forwarded removals and BYE in explicit texts |
| EndToEnd.SessionLogged | src/serveur_ftp.c:252-306 | a session's files and log are those of a list of events, one per RM or PUT, in order |
| EndToEnd.CutUploadIsEvent | src/response.c:852-894 | any stream at all, cut or malformed, leaves the files as some such event does |
| Replication.ReplayIsSession | src/serveur_ftp.c:143-187 | the update requests sent to a peer leave it with the replayed files and an empty log, so nothing is echoed; that session is guarded if and only if the replay keeps in step |
| Replication.TakesIsGuarded | src/serveur_ftp.c:169-184 | a replay keeps in step with a peer that can take each file of accepted name, and leaves nothing unread there, if nothing is sent for other names |
| EndToEnd.ReplicaEndToEnd | src/serveur_ftp.c:143-187 | a finished client session, refused uploads included, and a finished replay, both down to the bytes on the wire, leave the peer's files equal to the origin's |
| EndToEnd.RefusedReplayStops | src/response.c:880-883 | a schedule of the replay of a refused name and a good one that ends with the peer still empty, the block left over having been taken for the second request |
| Replication.Converges | src/serveur_ftp.c:143-187 | for any removals and any stored, cut or refused uploads, by names without "..", replaying the log from the origin's final files keeps in step and makes the peer's files equal, although a replayed upload sends the final and not the logged content; also when they were equal already |
| Replication.ClusterConverges | src/serveur_ftp.c:249-319 | any number of slaves and serialised sessions of such requests on any of them: every replay in step and all files equal after each session |
| Replication.ReplicationExact | src/serveur_ftp.c:143-187 | for any set of requests by paths without "..", every run on two slaves keeps files equal and replays in step if and only if no removable file clashes with another name, and the requests naming a storable file fit exactly if they are removals or uploads by an accepted name |
| Replication.OverlongDiverges | src/serveur_ftp.c:155-159 | an accepted name too long for the payload is skipped and the slaves differ |
| Replication.UnsentRemovalDiverges | src/serveur_ftp.c:155-159 | so does a removal, under a name too long, of a file stored under another |
| Replication.ClashDiverges | src/utils.c:105-111 | a directory left by an upload and a removal on one slave keeps it from taking a file of that name |
| Replication.ClashStops | src/serveur_ftp.c:143-187 | a file uploaded again after one in its way was removed is sent twice, and the first time the peer refuses it and loses step |
| Replication.RefusedStops | src/response.c:880-883 | an upload logged under another name of a file, with nothing to send, makes the replay send that file to a peer that refuses the name |
| Replication.UpwardDiverges | src/path.c:75-90 | after put d/x, rm d/x and put a, a removal of d/../a removes a on one slave only |
| Coherence.Network.ReplayTo | src/serveur_ftp.c:143-187 | the walk over the list replays exactly its entries, in order, skipping what the code skips, if and only if the peer keeps in step |
| Coherence.Network.Coherence | src/serveur_ftp.c:117-200 | the in-place cutting of the peer list visits its non-empty lines in order, up to the first peer that cannot be reached or loses step |
| Coherence.NamesOfList | src/serveur_ftp.c:120-138 | for any names, each followed by a newline or a carriage return and a newline, with or without a last one that nothing ends, the walk reads back exactly these names |
| Coherence.PeersConverge | src/serveur_ftp.c:117-196 | the walk reaches every peer; then each has the origin's files, those listed twice included, and no other slave has changed |
| Coherence.ListConverges | src/serveur_ftp.c:117-196 | the same of the text of such a list: the walk returns 0, each slave listed has the origin's files, and the others are unchanged |
| Logs.Add | src/logs.c:6-43 | through any node, one new node ends the same list and all others stay; a null list or an overlong path is refused and nothing changes |
| Logs.Follow | src/logs.c:45-51 | the next node, or null |
| Logs.AddAll | src_test/SuiteDeTests.c:70-106 | on a list with a node, additions are seen by repeated follow in the order made |
| Logs.Enumerate | src/logs.c:45-51 | repeated follow meets all entries in order |
| Logs.FreeLog | src/logs.c:53-61 | every node is freed once, and no other |
| Logs.ConnectionLog | src/serveur_ftp.c:249-283 | as shipped the log of a connection stays empty; the update flag is set exactly by an UPDATE request |
| Master.Server.Serve | src/master_dns.c:180-211 | a wrong password is PASSWORD_ERROR and no slave or another request SLAVE_ERROR, and both leave the index; otherwise the next slave is granted and the index advances |
| Master.Server.ServeAll | src/master_dns.c:142-211 | over any mix of logins the grants follow the rotation |
| Master.WrongPasswords | src/master_dns.c:180-189 | any number of logins with a wrong password, anywhere in between, take no slave and leave the other grants as they are |
| Master.EveryRound | src/master_dns.c:197-205 | of every n consecutive grants each slave gets exactly one |
| Master.CountShare | src/master_dns.c:197-205 | after m grants each slave has had m / n of them, or one more |
| Master.Balanced | src/master_dns.c:197-205 | no slave is ever two grants ahead of another |
| Master.WriteCred | src/master_dns.c:54-72 | the buffer holds address, colon and port |
| Master.GetCred | src/client.c:399-419 | the copy loop gives the host and the port, no port, or an overrun of the caller's buffer, exactly as specified |
| Master.CredRoundTrip | src/master_dns.c:84-85 | with the master's buffer of 5 for the port and the caller's of 16 for the address, the client recovers both if and only if the port is below 10000 and the address has no colon and fewer than 16 characters; a longer one overruns |

## Left out

- Slave.Worker.SendServerResponse: does not model LS, whose listing helper never stores its result through the pointer it is given.
- FileSystem.Disk.OpenFileW: the kernel's own limits, 255 bytes for a component and PATH_MAX for a path, which also make the open fail.
- DownloadClient.Client.AutoResumeDownloads: the directory listing is that of the scan's beginning; entries the scan itself creates or removes are not listed again.
- Session.DeliverTracks: the files a session uploads are those at its start; a file downloaded and uploaded again in one session is sent as it was before.
- FileSystem.Disk.GetExistingPath: a path that leads above the root, where what it names depends on directories outside it.
- FileSystem.Disk.RemoveFile: the same paths.
- LockStep.FramingExact: sessions with such a path; local calls that fail otherwise than its conditions say, or end the client's process.
- Replication.ReplicationExact: the exact condition for names with "..", of which one failing instance is given.
- Coherence.Network.ReplayTo: what becomes of a peer that has lost step.
- Transfer.ReceiveContent: streams an honest slave does not send; a block that announces more than 512 bytes makes the code read past the block received.
- Symbolic links and permissions; slaves whose root directories have different canonical paths.
- Uninitialised `struct stat` after a failed `stat` in `open_file_w`: taken as not a directory.
- Power loss and reordered disk writes: a crash keeps the effects of completed system calls.
- A failing `unlink` in the cleanup of partial files, and a meta file that exists but cannot be read.
- A server file that changes during a download, and names that alias the partial files of another download.
- Transfer.TransferOver: files of 4 GiB or more, whose size the code cuts to 32 bits; the sender alone is modelled for them; the results on downloads and sessions speak of smaller files.
- Concurrent sessions writing the same path on different slaves: sessions are serialised.
- Sockets, processes and signals, name resolution, the password hash, prompts, statistics and debugging output; a password check is a given boolean.
- The master's peer listing and the start-up reading of its configuration; the peer list is an input.
- Transfers between hosts of different byte order beyond the two statements about headers and block sizes.
