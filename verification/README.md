# perp and lasagna: verified models

This project models the parts of the perp process supervisor and of its library lasagna whose
correctness rests on a whole loop, a whole file or a whole run, and proves what they promise.

**Constant databases** (`lasagna/cdb`, `lasagna/hdb`). `SlotTable` is the abstract
half-full probing table; `CdbHash`, `Layout` and `CdbImage` say what a finished file is, byte by byte,
as a function of the records added; `HashBits` and `FileLaws` say the same in the words and numbers of the
code and the format; `CdbLookup` and `CdbReader` are the reader; `BlockLists`,
`CdbBuild` and `CdbWriter` are the generator with its head-pushed block lists, in-place list
reversal, shared table buffer, four batches and pointer section; `CdbStore` puts them together: what
was added comes back, in order, and nothing else. The second database differs in its hash, slot function,
lengths, number of subtables and header; what the two share is proved for both. `Hdb` is its file
format and sequential walk, `HdbWriter` its generator, `HdbStore` its search and the whole use.

**Buffered input and output** (`Ioq`). Both cursor disciplines over one buffer, with any short reads
and writes. The generator's bytes go through it.

**The supervisor** (`perp/perpd*.c`). `Supervisor` is the daemon as a transition system: scans, reaps,
control requests, retries after a failed fork, SIGTERM. System calls are answers given from outside
(the clock, and a fresh pid or a failed fork), and everything observable is recorded in a history.
`SupervisorTable` accounts for every child in every run. `SupervisorHistory` and `SupervisorRuns`
prove the rules every process's life follows when forks succeed, `SupervisorPromises` states them on
positions of the history. `SupervisorServed`, `SupervisorSpacing`, `SupervisorDuty`, `SupervisorShutdown`,
`SupervisorScan`, `SupervisorActivation`, `SupervisorFlags`, `SupervisorControl` and `SupervisorTurns` prove
that no service is forgotten, that starts are spaced by the respawn governor, that entries record what was
done and services that are to go are asked to, when and after how many reaps shutdown ends, what a scan
leaves and what it starts, how the pending flags move, what the commands mean, and what a turn of the main
loop does. `Daemon` is the program as it
stands in memory, an array of entries changed in place by loops, proved equal to the transition
system turn by turn.

**The control protocol** (`Packet`, `Conn`, `ConnClient`). Requests and replies in pieces of any size
are handled as if they were whole.

**Smaller loops**: the wildcard matcher (`Glob`), the base64 encoder (`Tx64`), timestamps and the
respawn governor (`Tain`).

Where the code departs from its documentation the model follows the code:

- a search key longer than 80 bytes is compared with its first 80 bytes over and over
  (`CdbLookup.FindRightIff` says for which keys that is right, `CdbLookup.LongKeyLost` is one for which
  it is not; `HdbStore.HdbFindRightIff` says the same of the second database);
- the size check of the generator multiplies before it checks (`CdbWriter.CheckRightIff`
  says when that is right, `CdbWriter.CheckFooled` is a database for which it is not);
- the matcher's short cut on the last character overlooks matches (`Glob.CstrMatch` says exactly which,
  `Glob.SafeIsRight` and `Glob.RiskyIsWrong` for which patterns, `Glob.Overlooked` is one);
- a reset whose fork fails during termination is not retried, and the daemon may then never end
  (`SupervisorShutdown.ShutdownEndsIff` says exactly when, `SupervisorShutdown.ResetForkLost` is the
  family in which it does not);
- a scan that cannot open the base directory drops the request for it (`SupervisorPromises.ScanForgetsIff`,
  `SupervisorPromises.UnopenedScanForgets`), and one that breaks off midway makes the retries pass over
  services that are failing (`SupervisorServed.RetryReachesIff`, `SupervisorServed.CutScanForgets`);
- a retry starts a failing process even when it is wanted down or its service is to go
  (`SupervisorServed.RetryReachesIff`, `SupervisorDuty.GoingStarted`; without a failed fork
  `SupervisorPromises.RunsStayDown` and `SupervisorDuty.RunsAskToEnd` hold);
- a malformed request header is answered and then dispatched again on the reply's own type
  (`ConnClient.Client.Exec`).

`dafny verify dfyconfig.toml` checks everything.

## Model

| member | source | states |
|---|---|---|
| `Bytes.AddU32` | lasagna/ufunc/ufunc_u32add.c:22-35 | the wrapped comparison detects exactly the sums that do not fit in 32 bits, and leaves the value alone then |
| `Bytes.PackUnpack32` | lasagna/upak/upak32_pack.c:12-23 | little-endian packing loses nothing |
| `Bytes.UnpackPack32` | lasagna/upak/upak32_unpack.c:12-26 | every four bytes are the packing of the number they unpack to |
| `Bytes.LittleEndian32` | lasagna/upak/upak32_unpack.c:12-26 | the first byte counts ones, the next 256, and so on |
| `Bytes.LittleEndian24` | lasagna/upak/upak24_unpack.c:12-24 | the same for three bytes |
| `CdbHash.HashPart` | lasagna/cdb/cdb_hashpart.c:28-47 | the loop unrolled by four with its fall-through tail is the fold of one step per byte, for every length; `HashBits.StepIsBits` says what the step is |
| `CdbHash.HashAppend` | lasagna/cdb/cdb_hashpart.c:28-47 | hashing a key in parts is hashing it whole |
| `HashBits.StepIsBits` | lasagna/cdb/cdb_hashpart.c:33-43 | one step of the model, which is arithmetic, is on every 32-bit word and byte the shift, addition and exclusive or of the code; for the second database likewise, in the other order |
| `HashBits.HashIsBits` | lasagna/hdb/hdb_hashpart.c:30-47 | for every key the hash of the model is the word the code computes, for both databases |
| `HashBits.KnownHashes` | lasagna/cdb.h:324-351 | the key "a" hashes to 177604 and 3589 |
| `SlotTable.FreeExists` | lasagna/cdb/cdbmk_finish.c:48-80 | a table with fewer entries than slots has a free slot |
| `SlotTable.Landing` | lasagna/cdb/cdbmk_finish.c:48-80 | an insertion goes to the first free slot, cyclically from the target slot, and changes no other |
| `SlotTable.TableUsed` | lasagna/cdb/cdbmk_finish.c:177-202 | after loading, as many slots are used as entries were loaded |
| `SlotTable.TablePacked` | lasagna/cdb/cdbmk_finish.c:48-80 | in a loaded table every slot cyclically between an entry's target and its own slot is occupied |
| `SlotTable.TableHolds` | lasagna/cdb/cdbmk_finish.c:48-80 | every entry loaded is in the table |
| `SlotTable.ScanInsert` | lasagna/cdb/cdbmk_finish.c:48-80 | an insertion adds the entry at the end of what probing for its hash finds, and changes nothing for other hashes |
| `SlotTable.ScanTable` | lasagna/cdb/cdb_find.c:58-123 | probing a loaded table for a hash finds exactly the entries loaded under it, in loading order |
| `Layout.FilePointer` | lasagna/cdb/cdbmk_finish.c:222-235 | pointer k of a file names the offset and number of slots of subtable k |
| `Layout.FileSlot` | lasagna/cdb/cdbmk_finish.c:177-206 | slot i of subtable k lies at the named offset plus 8 i |
| `CdbImage.ImageSize` | lasagna/cdb/cdbmk_finish.c:136-147 | a finished file has exactly the end of the records plus 16 bytes per record |
| `CdbImage.ImagePointer` | lasagna/cdb/cdbmk_finish.c:222-235 | where each subtable of a finished file lies, as its pointer says |
| `CdbImage.ImageSlot` | lasagna/cdb/cdbmk_finish.c:177-206 | every slot of every subtable, as a reader finds it |
| `CdbImage.ImageRecord` | lasagna/cdb/cdbmk_add.c:43-74 | record i lies at the offset the records before it add up to, header, key and data |
| `CdbImage.EntriesUsed` | lasagna/cdb.h:49-49 | no record has offset 0, the mark of a free slot |
| `FileLaws.CdbRecordFiled` | lasagna/cdb.h:354-359 | the format in its own numbers: every record of a finished file lies past 2048 bytes and the records before it, and the table whose pointer is at 8 * (h % 256) holds its hash h and its offset at the first slot from h / 256 on, cyclically, with occupied slots only before it |
| `FileLaws.HdbRecordFiled` | lasagna/hdb.h:386-392 | the same for the second database: identifier, record count and record base in the header, directory entry at 24 + 8 * (h % 8), slots from the shuffled hash on |
| `CdbLookup.KeyMatchFrom` | lasagna/cdb/cdb_find.c:25-47 | what the key comparison decides: equality with the first 80 bytes of the key repeated, because the key pointer does not advance |
| `CdbLookup.CheckRecord` | lasagna/cdb/cdb_find.c:88-110 | the record test of a probe accepts a record exactly when its key is the folded search key, and gives its data length |
| `CdbLookup.RunIsScan` | lasagna/cdb/cdb_find.c:58-177 | probing the bytes of a table by find and findnext is scanning the abstract table |
| `CdbLookup.LookupHits` | lasagna/cdb/cdb_find.c:126-177 | the hits of a key in a finished file are the records with the folded key, in order, when the two hashes agree |
| `CdbLookup.AnswersExact` | lasagna/cdb/cdb_find.c:126-177 | exactly what every finished file answers for every key of any length |
| `CdbLookup.FindYieldsAdded` | lasagna/cdb/cdb_find.c:126-177 | for keys of up to 80 bytes: find and then findnext yield exactly the data added under the key, duplicates in insertion order, then no more; nothing for a key never added |
| `CdbLookup.FindRightIff` | lasagna/cdb/cdb_find.c:30-43 | lookups of a key are right in every file if and only if the key is its first 80 bytes repeated |
| `CdbLookup.LongKeyLost` | lasagna/cdb/cdb_find.c:30-43 | an 81-byte key that is added and not found |
| `CdbReader.WalkVisitsAll` | lasagna/cdb/cdb_seq.c:16-54 | seqinit and n times seqnext on a finished file is on record n, then at the end |
| `CdbReader.InitFindsEnd` | lasagna/cdb/cdb_init.c:46-54 | the first pointer of a finished file gives the end of the records |
| `CdbReader.Cdb.Read` | lasagna/cdb/cdb_read.c:24-36 | a read of the map succeeds exactly when it lies within it, and then copies those bytes |
| `CdbReader.Cdb.Init` | lasagna/cdb/cdb_init.c:46-54 | the end of the records as the first four bytes give it, or failure when they are missing |
| `CdbReader.Cdb.KeyMatchAt` | lasagna/cdb/cdb_find.c:25-47 | the comparison loop over 80-byte pieces decides as its specification |
| `CdbReader.Cdb.HashProbe` | lasagna/cdb/cdb_find.c:58-123 | the probe loop ends at a match, a free slot or back at its start, with the cursors on the match |
| `CdbReader.Cdb.Search` | lasagna/cdb/cdb_find.c:126-159 | for either database: result and cursors are the first of the hits in the subtable given, or none, or a failed read |
| `CdbReader.Cdb.Find` | lasagna/cdb/cdb_find.c:126-159 | result and cursors are the first of all the hits of the key, or none, or a failed read |
| `CdbReader.Cdb.FindNext` | lasagna/cdb/cdb_find.c:162-177 | result and cursors are the next of the remaining hits, further from the target slot than the last |
| `CdbReader.Cdb.Get` | lasagna/cdb/cdb_get.c:22-30 | the data at the cursor, cut to the caller's length |
| `CdbReader.Cdb.SeqInit` | lasagna/cdb/cdb_seq.c:37-44 | 1 with the cursor on the first record, 0 when there is none, -1 when it cannot be read |
| `CdbReader.Cdb.Next` | lasagna/cdb/cdb_seq.c:46-54 | 1 with the cursor on the next record, 0 at the end, -1 for a failed read |
| `CdbStore.AllData` | lasagna/cdb/cdb_find.c:126-177 | a caller's loop of find, get and findnext ends, and collects exactly the answers of the file |
| `CdbStore.Collect` | lasagna/cdb/cdb_find.c:162-177 | the loop of get and findnext after a find, for either database, collects the data of every hit or reports a failed read |
| `CdbStore.StoreAndAsk` | lasagna/cdb/cdbmk_finish.c:112-244 | records added one by one, the file finished, opened and asked: there is an answer exactly when no write call failed, and it is the data added under the key, in order |
| `Ioq.WriteAll` | lasagna/ioq/ioq_put.c:64-90 | short writes are repeated until everything is written; it fails exactly when a write call failed, with a first part written |
| `Ioq.OutQueue.Flush` | lasagna/ioq/ioq_put.c:101-110 | what was waiting is written, and nothing else; it fails exactly when a write call failed |
| `Ioq.OutQueue.WriteOut` | lasagna/ioq/ioq_put.c:133-146 | the direct writes of a large put: what is left fits the buffer and everything before it is written, or a write call failed |
| `Ioq.OutQueue.Put` | lasagna/ioq/ioq_put.c:121-155 | written bytes followed by waiting bytes grow by exactly the data; it fails exactly when a write call failed, and what was written is then a first part of it |
| `Ioq.OutQueue.PutFill` | lasagna/ioq/ioq_put.c:201-221 | the same when the buffer is filled before each flush |
| `Ioq.SlideUp` | lasagna/ioq/ioq_get.c:190-199 | the overlapping slide keeps the bytes |
| `Ioq.InQueue.Feed` | lasagna/ioq/ioq_get.c:173-202 | one read into an empty buffer, slid to its end: bytes buffered followed by bytes not yet read are unchanged, and n + p stays the buffer size; -1 exactly when the read call failed, and 0 only at the end of input |
| `Ioq.InQueue.Extract` | lasagna/ioq/ioq_get.c:103-116 | bytes taken followed by bytes to come are the bytes that were to come |
| `Ioq.InQueue.Get` | lasagna/ioq/ioq_get.c:131-162 | the same for a get that may read past the buffer: negative exactly when a read call failed, 0 only at the end of input |
| `Ioq.InQueue.Seek` | lasagna/ioq/ioq_get.c:221-226 | discards exactly the bytes looked at |
| `BlockLists.ForwardReversed` | lasagna/cdb/cdbmk_finish.c:86-104 | the entries of a reversed list are the entries in the order they were pushed |
| `BlockLists.ListReverse` | lasagna/cdb/cdbmk_finish.c:88-104 | reversing the links in place gives the chain of the same blocks in reverse |
| `BlockLists.BlockList.Add` | lasagna/cdb/cdbmk__update.c:41-60 | an entry goes to the head block, or to a new one when that is full, and no block ever holds more than its room; the list holds one entry more, last |
| `CdbBuild.TbufLoad` | lasagna/cdb/cdbmk_finish.c:48-80 | loading never fails in a subtable with a free slot, and the shared buffer then holds the same tables with the entry inserted in that one |
| `CdbBuild.RoomForNext` | lasagna/cdb/cdbmk_finish.c:136-143 | a subtable of twice as many slots as entries has room for every entry as it is loaded |
| `CdbBuild.BatchIsSubTables` | lasagna/cdb/cdbmk_finish.c:177-206 | a batch loaded from one input list is 64 of the separately built subtables |
| `CdbBuild.Plan` | lasagna/cdb/cdbmk_finish.c:132-155 | the first loop's slots, offsets and list sizes in 32-bit arithmetic, and exactly when its overflow checks pass |
| `CdbBuild.CodeBytesExact` | lasagna/cdb/cdbmk_finish.c:136-147 | the table size the code computes is right exactly when no subtable has 2^28 records |
| `CdbBuild.LoadOne` | lasagna/cdb/cdbmk_finish.c:187-201 | the subtable, adjusted base and target of an entry put it into its own table of the batch |
| `CdbWriter.Index.Add` | lasagna/cdb/cdbmk__update.c:34-69 | one entry more, filed in the list of its subtable and counted there |
| `CdbWriter.Index.BuildList` | lasagna/cdb/cdbmk_finish.c:178-202 | the reversed list of a batch loaded block by block is that batch's subtables, built each on its own |
| `CdbWriter.AcceptedRightIff` | lasagna/cdb/cdbmk_finish.c:142-147 | for either database, any counters and any end of the records: the overflow check decides rightly if and only if no subtable has 2^28 records or the size it computes is too big all the same |
| `CdbWriter.CheckRightIff` | lasagna/cdb/cdbmk_finish.c:142-147 | the same for every sequence of records and its own size: the check accepts exactly the databases below 2^32 bytes, if and only if that condition on the counters holds |
| `CdbWriter.CheckFooled` | lasagna/cdb/cdbmk_finish.c:142-147 | 2^28 records with empty key and data, with their 256 counters: the check passes and the file would not fit |
| `CdbWriter.CdbMk.constructor` | lasagna/cdb/cdbmk_init.c:29-54 | a generator without records, positioned past the pointers |
| `CdbWriter.CdbMk.Add` | lasagna/cdb/cdbmk_add.c:43-74 | the record is appended with its header, filed and counted; refused exactly when it would end past 2^32, failed exactly when a write call failed |
| `CdbWriter.CdbMk.AddIoq` | lasagna/cdb/cdbmk_addioq.c:48-122 | a record read from a queue in pieces of any size leaves the generator as the plain add does, and the reader just past the record; it fails exactly when a call failed or the input is not such a record |
| `CdbWriter.CdbMk.WriteBatch` | lasagna/cdb/cdbmk_finish.c:177-209 | one batch puts exactly its 64 subtables, or a write call failed |
| `CdbWriter.CdbMk.WriteTables` | lasagna/cdb/cdbmk_finish.c:157-213 | the four batches put the 256 separately built subtables end to end, or a write call failed |
| `CdbWriter.CdbMk.WritePointers` | lasagna/cdb/cdbmk_finish.c:222-235 | the pointer section of those subtables, or a write call failed |
| `CdbWriter.CdbMk.Finish` | lasagna/cdb/cdbmk_finish.c:112-244 | refused exactly when the database would not stay below 2^32 bytes, broken exactly when a write call failed; otherwise the file is the image of the records added |
| `Hdb.HeaderFields` | lasagna/hdb/hdbmk_finish.c:230-247 | identifier, record count, record base and directory as they lie in a finished file |
| `Hdb.DirectoryField` | lasagna/hdb/hdbmk_finish.c:241-247 | directory entry k gives back the slots and the offset of subtable k |
| `Hdb.TablesLie` | lasagna/hdb/hdbmk_finish.c:181-215 | every slot lies where the directory says |
| `Hdb.RecordLies` | lasagna/hdb/hdbmk_add.c:43-80 | every record lies with its 24-bit lengths, key and data at the offset the records before it add up to |
| `Hdb.WalkVisitsAll` | lasagna/hdb/hdb_seq.c:17-56 | seqinit and n times seqnext on a file of this form, which the generator writes, is on record n, then at the end |
| `Hdb.Reader.Init` | lasagna/hdb/hdb_init.c:47-75 | accepts exactly the files with a whole header and the identifier, and takes its fields from their places |
| `Hdb.Reader.InitFinished` | lasagna/hdb/hdb_init.c:47-75 | on a file of this form, which the generator writes, it gives back the record count, the record base, the end of the records, and slots and offset of every subtable |
| `Hdb.Reader.SeqInit` | lasagna/hdb/hdb_seq.c:40-45 | the cursor is on the first record |
| `Hdb.Reader.Next` | lasagna/hdb/hdb_seq.c:48-56 | the cursor moves to the next record, the end, or reports a failed read |
| `Hdb.MadeProper` | lasagna/hdb/hdbmk_finish.c:149-151 | what the generator makes of a comment and records that fit is a file of that form: header, walk and search apply to it |
| `HdbWriter.LoadTable` | lasagna/hdb/hdbmk_finish.c:189-207 | the reversed list of a subtable, loaded block by block with its adjusted base, is the table built of its entries alone |
| `HdbWriter.HdbPlan` | lasagna/hdb/hdbmk_finish.c:132-151 | slots, offsets and record count in 32-bit arithmetic, and exactly when the overflow checks pass |
| `HdbWriter.HdbMk.constructor` | lasagna/hdb/hdbmk_start.c:36-55 | a generator without records, positioned past the header |
| `HdbWriter.HdbMk.Start` | lasagna/hdb/hdbmk_start.c:57-70 | the comment is put and the records begin after it; refused exactly when it would end past 2^32, failed exactly when a write call failed |
| `HdbWriter.HdbMk.Add` | lasagna/hdb/hdbmk_add.c:43-80 | the record is appended with its 24-bit lengths, filed and counted; refused exactly when a length takes more than 24 bits or the record would end past 2^32, failed exactly when a write call failed |
| `HdbWriter.HdbMk.WriteTables` | lasagna/hdb/hdbmk_finish.c:178-215 | the running sum of slots keeps each subtable at the front of the buffer; the eight separately built subtables are put end to end, or a write call failed |
| `HdbWriter.HdbMk.WriteDirectory` | lasagna/hdb/hdbmk_finish.c:241-247 | the directory of those subtables, or a write call failed |
| `HdbWriter.HdbMk.WriteHead` | lasagna/hdb/hdbmk_finish.c:220-252 | the front of the file is overwritten with the header and the directory, the rest kept, or a write call failed |
| `HdbWriter.HdbMk.Finish` | lasagna/hdb/hdbmk_finish.c:112-256 | refused exactly when the database would not stay below 2^32 bytes, broken exactly when a write call failed; otherwise the file is that of the comment and the records added, with the number of records in its header |
| `HdbStore.HdbLookupHits` | lasagna/hdb/hdb_find.c:128-180 | the hits of a key in a file the generator made are the records with the folded key, in order, when the two hashes agree |
| `HdbStore.HdbAnswersExact` | lasagna/hdb/hdb_find.c:128-180 | exactly what every file the generator made answers for every key below 2^24 bytes |
| `HdbStore.HdbFindYieldsAdded` | lasagna/hdb/hdb_find.c:128-180 | for keys of up to 80 bytes: find and then findnext yield exactly the data added under the key, in insertion order, then no more |
| `HdbStore.HdbFindRightIff` | lasagna/hdb/hdb_find.c:32-45 | lookups of a key below 2^24 bytes are right in every file if and only if the key is its first 80 bytes repeated |
| `HdbStore.HdbFind` | lasagna/hdb/hdb_find.c:128-162 | result and cursors are the first of all the hits of the key, or none, or a failed read; a longer key is an error |
| `HdbStore.HdbAllData` | lasagna/hdb/hdb_find.c:128-180 | a caller's loop of find, get and findnext ends, and collects exactly the answers of the file |
| `HdbStore.HdbStoreAll` | lasagna/hdb/hdbmk_finish.c:112-256 | start, adds and finish make the file of the comment and the records, exactly when no write call failed |
| `HdbStore.HdbStoreAndAsk` | lasagna/hdb/hdb_find.c:128-180 | records added one by one, the file finished, opened and asked: there is an answer exactly when no write call failed, and it is the data added under the key, in order |
| `Tain.PlusExact` | lasagna/tain/tain_plus.c:10-20 | the sum with carry is the sum in nanoseconds, modulo 2^64 seconds |
| `Tain.MinusExact` | lasagna/tain/tain_minus.c:11-22 | the difference with borrow is the difference in nanoseconds |
| `Tain.Less` | lasagna/tain/tain_less.c:10-18 | the comparison is the order in nanoseconds |
| `Tain.PlusInto` | lasagna/tain/tain_plus.c:10-20 | the in-place sum is right also when the result is one or both arguments |
| `Tain.MinusInto` | lasagna/tain/tain_minus.c:11-22 | the in-place difference likewise |
| `Tain.Govern` | perp/perpd_svdef.c:391-398 | the governor's computation, with results replacing arguments, is its specification |
| `Tain.NextOkExact` | perp/perpd_svdef.c:473-481 | the next start is allowed exactly one second after the later of the request and the time already granted, even for a clock that went back |
| `SupervisorTable.ChildrenRecorded` | perp/perpd.c:338-361 | the unreaped children are exactly the positive pids of the table |
| `SupervisorTable.RecordedOnce` | perp/perpd.c:338-361 | no pid is recorded twice |
| `SupervisorTable.ChildFound` | perp/perpd.c:340-354 | the search for a reaped child always finds it |
| `SupervisorTable.RemoveInv` | perp/perpd.c:296-314 | swap-removal of a finished entry loses no child and keeps entries distinct |
| `SupervisorTable.CullInv` | perp/perpd.c:296-314 | culling keeps the account of every child |
| `SupervisorTable.ScanInv` | perp/perpd.c:490-625 | so does a scan, and the table stays within PERP_MAX |
| `SupervisorTable.StepInv` | perp/perpd.c:790-850 | so does every event of the main loop |
| `SupervisorTable.RunsAccounted` | perp/perpd.c:660-921 | in every run, with any events and fork failures: children are recorded exactly once, entries have distinct device and inode, at most PERP_MAX of them |
| `SupervisorHistory.RunTold` | perp/perpd_svdef.c:335-484 | launching keeps the history in its rules whenever it is called where the rules allow it and fork succeeds |
| `SupervisorHistory.ControlLawful` | perp/perpd_conn.c:131-225 | no control command breaks the rules of a process's life |
| `SupervisorHistory.CheckfailLawful` | perp/perpd_svdef.c:185-217 | neither does a retry |
| `SupervisorHistory.WantcullLawful` | perp/perpd_svdef.c:229-282 | neither does beginning a deactivation |
| `SupervisorHistory.ReapedTold` | perp/perpd.c:355-423 | neither does what follows a reap |
| `SupervisorRuns.CullFacts` | perp/perpd.c:296-314 | culling leaves no finished entry, and owes a rescan only for one that asked to come back |
| `SupervisorRuns.WaitupRun` | perp/perpd.c:326-426 | reaping any children keeps the invariant of runs without a failed fork |
| `SupervisorRuns.ScanRun` | perp/perpd.c:490-625 | so does a scan, whatever the directory holds |
| `SupervisorRuns.TerminateRun` | perp/perpd.c:790-818 | so does the SIGTERM branch |
| `SupervisorRuns.StepRun` | perp/perpd.c:790-850 | so does every event |
| `SupervisorRuns.RunsLawful` | perp/perpd.c:660-921 | in every run without a failed fork: history in its rules, table in agreement with it, no finished entry left, and a rescan pending whenever a reactivation is owed, whatever scans failed before |
| `SupervisorPromises.Alternates` | perp/perpd.c:363-378 | what the phase automaton means: consecutive launches of a process differ in goal, with the reap of the first between them |
| `SupervisorPromises.RunsAlternate` | perp/perpd.c:363-378 | in every run without a failed fork the launches of each process alternate start and reset, each after the previous one was reaped |
| `SupervisorPromises.RunsBeginWithStart` | perp/perpd_svdef.c:135-158 | the first launch of each process is a start |
| `SupervisorPromises.RunsNameTarget` | perp/perpd_svdef.c:356-363 | the reset flag of an entry always names what its live process runs |
| `SupervisorPromises.RunsDeactivate` | perp/perpd_svdef.c:234-268 | from deactivation to removal nothing of the service is started, and its logger is asked to end only when main is gone and never comes back |
| `SupervisorPromises.RunsSignal` | perp/perpd_conn.c:74-121 | in every run without a failed fork signals go to live processes only, and one running reset gets none but SIGCONT and SIGKILL |
| `SupervisorPromises.RunsStayDown` | perp/perpd_svdef.c:149-158 | in every run without a failed fork a process asked down, or a main activated with flag.down, is not started until it is asked up or its service is removed or activated |
| `SupervisorPromises.RunsOnce` | perp/perpd_conn.c:179-186 | in every run without a failed fork a process asked up once, or a main activated with flag.once, is started at most once until it is asked up again or its service is removed or activated |
| `SupervisorPromises.RunsRemove` | perp/perpd.c:400-416 | no entry marked for removal outlives an event with both processes gone |
| `SupervisorPromises.RunsReactivate` | perp/perpd.c:405-423 | while a removed service is owed its reactivation a rescan is pending, unless terminating; what is owed is settled by the next scan that succeeds or cannot open the base directory, and nothing else |
| `SupervisorPromises.ScanForgetsIff` | perp/perpd.c:505-508 | a scan leaves a reactivation due and no rescan pending if and only if it cannot open the base directory |
| `SupervisorPromises.UnopenedScanForgets` | perp/perpd.c:505-508 | such a scan does lose the pending reactivation, in every state that owes one |
| `SupervisorServed.StepSound` | perp/perpd.c:790-850 | every event, whatever forks fail, leaves each process running, wanted down, or failing with a retry pending, except for retries skipped after a scan that broke off |
| `SupervisorServed.RunsServed` | perp/perpd.c:363-378 | in every run: running, or wanted down, or failing with a retry pending, unless terminating or retries ran between a scan that broke off and the next that read the whole directory |
| `SupervisorServed.RetryReachesIff` | perp/perpd_svdef.c:185-217 | a round of retries attempts a failing process for a goal if and only if its entry is active and that goal is the one that failed, wanted down or not |
| `SupervisorServed.CutScanForgets` | perp/perpd_svdef.c:191-193 | after a scan that breaks off at once the retries pass over every entry and are no longer pending |
| `SupervisorSpacing.MarkTimely` | perp/perpd_svdef.c:473-481 | a start takes effect no earlier than the mark, and sets the mark one second later |
| `SupervisorSpacing.StepTimed` | perp/perpd.c:790-850 | every event keeps the marks in step with the starts |
| `SupervisorSpacing.RunsSpaced` | perp/perpd_svdef.c:391-398 | in every run, with any clock and any fork failures: the k-th start of a process takes effect at least k - j seconds after the j-th, between activations |
| `SupervisorSpacing.RunsPrompt` | perp/perpd_svdef.c:391-398 | and no later: a start takes effect when the clock says or exactly one second after the start before it, whichever is later; the first after an activation when the clock says |
| `SupervisorShutdown.TerminateShut` | perp/perpd.c:790-818 | from any state the SIGTERM branch leaves every entry ending, none finished, and the same reaps to do |
| `SupervisorShutdown.ReapedWeight` | perp/perpd.c:355-423 | a reap of an ending service turns start into reset and reset into nothing |
| `SupervisorShutdown.ShutDone` | perp/perpd.c:701-704 | while shutting down: no entry, no weight and no child are the same |
| `SupervisorShutdown.ShutdownRuns` | perp/perpd.c:326-426 | after the SIGTERM branch, whatever happens, as long as no fork fails: weight plus reaps is constant, nothing is started, and the table is empty exactly when the weight is used up and no child is left |
| `SupervisorShutdown.ShutdownProgress` | perp/perpd.c:701-704 | while an entry is left there is a child to reap, and reaping it lowers the weight by one |
| `SupervisorShutdown.Stranded` | perp/perpd.c:175-184 | a terminating daemon without children never changes again |
| `SupervisorShutdown.RunsClosing` | perp/perpd.c:790-850 | in every run after the SIGTERM branch, whatever forks fail, every entry keeps ending and the account of children holds |
| `SupervisorShutdown.LastBatchIff` | perp/perpd.c:326-426 | the batch of reaps that leaves no child leaves no entry if and only if one of its reaps finishes an entry |
| `SupervisorShutdown.LastReapIff` | perp/perpd.c:363-416 | with one child left, its reap ends the shutdown if and only if it was running reset |
| `SupervisorShutdown.ShutdownEndsIff` | perp/perpd.c:701-704 | in every run, whatever forks fail: shutdown ends at once if nothing runs at the SIGTERM branch, otherwise if and only if the reaps that leave no child finish an entry; after that nothing changes any more |
| `SupervisorShutdown.ResetForkLost` | perp/perpd.c:175-184 | in any table: when the fork for the reset of the last process fails during shutdown its entry is never removed and the loop never ends |
| `SupervisorDuty.StepDuty` | perp/perpd.c:790-850 | every event, whatever forks fail, keeps every entry in agreement with the last attempts, stops and requests to end in the history |
| `SupervisorDuty.RunsAskToEnd` | perp/perpd_svdef.c:229-282 | in every run: a service that is to go, deactivated or at SIGTERM, has sent the process whose turn it is, main or then the logger, SIGTERM and later SIGCONT since its last deactivation, unless it runs reset; the one exception is a process that was failing and that a retry started since, and without a failed fork there is none |
| `SupervisorDuty.GoingStarted` | perp/perpd_svdef.c:209-214 | that exception: a run of four events after which a deactivated service runs main, which was never asked to end |
| `SupervisorDuty.RunsRecord` | perp/perpd_svdef.c:356-363 | in every run: a live process is the last one launched, for the goal, with the pid and at the clock reading on record; a failing one is the last whose fork failed, for the goal on record |
| `SupervisorDuty.RunsPause` | perp/perpd_conn.c:159-193 | in every run: a process marked paused was sent SIGSTOP and no SIGCONT since, and a live one that was, since its launch, is marked |
| `SupervisorScan.CullIs` | perp/perpd.c:296-314 | culling removes the finished entries and no others |
| `SupervisorScan.ScanDirsReads` | perp/perpd.c:520-575 | what the table is after reading directories: kept, activated, or not yet seen |
| `SupervisorScan.ScanResult` | perp/perpd.c:509-614 | after an error-free scan every listed service has an active entry with its processes untouched, coming back if it was deactivating; every other entry is deactivating without coming back and has a live process; no running service lost its entry |
| `SupervisorScan.ScanSucceeds` | perp/perpd.c:549-568 | no activation fails when every directory opens and the table has room |
| `SupervisorScan.RunsSteady` | perp/perpd.c:660-921 | every run without a failed fork is always ready for ScanResult |
| `SupervisorActivation.ActivateOpens` | perp/perpd_svdef.c:140-158 | activation starts the logger if there is one and main unless it is to be down, each launched exactly if its fork succeeds, with the flags of the directory |
| `SupervisorActivation.ScanActivates` | perp/perpd.c:549-575 | after any scan, whatever failed, an entry of a service that had none is that of its first directory that opens, and its history grew by the activation and these attempts and nothing else |
| `SupervisorFlags.StepFlags` | perp/perpd.c:131-184 | only SIGTERM begins termination, and a terminating daemon has no scan pending |
| `SupervisorFlags.ScanPends` | perp/perpd.c:577-625 | after a scan a rescan is pending exactly if it broke off or could not activate something |
| `SupervisorFlags.RetryTells` | perp/perpd.c:844-849 | after a round of retries the failing flag tells whether one of them failed again |
| `SupervisorControl.DownSignals` | perp/perpd_conn.c:161-167 | a live process gets SIGTERM unless in reset, then SIGCONT |
| `SupervisorControl.UpMeans` | perp/perpd_conn.c:177-207 | the wish is recorded, a live process left alone, one that is down started with the pid and clock reading the system gave or marked failing; nothing else changes |
| `SupervisorControl.CommandsKnown` | perp/perpd_conn.c:142-222 | the sixteen commands; any other changes nothing and is reported |
| `SupervisorControl.SignalCommands` | perp/perpd_conn.c:156-218 | the nine letters that are signals, each with its signal: sent if it can reach the process, and nothing else changes |
| `SupervisorControl.PauseCommands` | perp/perpd_conn.c:159-193 | pause and continue: the signal, the mark, nothing else, and no pause during reset |
| `SupervisorControl.DownCommand` | perp/perpd_conn.c:163-169 | down: the wish, SIGTERM unless in reset, SIGCONT, and a live process is not left marked paused |
| `SupervisorControl.UpCommands` | perp/perpd_conn.c:179-207 | once and up: the wish with its flag, then at most one attempt to start, and no signal |
| `SupervisorControl.BothCommands` | perp/perpd_conn.c:142-155 | the commands for both take main down before the logger and bring it up after it, and do nothing for a logger alone |
| `Daemon.Perpd.Find` | perp/perpd.c:193-206 | the loop finds the first entry with the device and inode, or none |
| `Daemon.Perpd.CullTable` | perp/perpd.c:296-314 | the in-place swap-removal loop is culling |
| `Daemon.Perpd.RunAt` | perp/perpd_svdef.c:335-484 | launch, refusal and failed fork, in place |
| `Daemon.Perpd.WantcullAt` | perp/perpd_svdef.c:229-282 | deactivation of an entry in place, and whether it is already finished |
| `Daemon.Perpd.CheckfailAt` | perp/perpd_svdef.c:185-217 | the retry of an entry in place |
| `Daemon.Perpd.ActivateNext` | perp/perpd_svdef.c:74-161 | activation in the entry past the end |
| `Daemon.Perpd.WaitupTable` | perp/perpd.c:326-426 | the waitpid loop with its search, then culling and the rescan trigger |
| `Daemon.Perpd.TerminateTable` | perp/perpd.c:790-818 | the SIGTERM branch over the array |
| `Daemon.Perpd.RetryTable` | perp/perpd.c:833-850 | the retry loop over the array |
| `Daemon.Perpd.ScanTable` | perp/perpd.c:490-625 | the scan over the array: unflag, read, sweep, cull |
| `Daemon.Perpd.ControlAt` | perp/perpd_conn.c:131-225 | a control command on an entry in place |
| `Daemon.Perpd.ServeTable` | perp/perpd_conn.c:292-320 | lookup, refusal of a deactivating service, and the command |
| `Daemon.Perpd.Turn` | perp/perpd.c:790-890 | one turn of the main loop, on state and history: termination begins exactly with SIGTERM; every child reported is reaped and no other; then one scan of what the poll found, certainly if pending, asked for or timed, and never while terminating; then one round of retries if something failed; then every request is served, unless something still fails or the daemon terminates; in this order. It gives up exactly when forks were failing as termination began |
| `Daemon.Perpd.Mainloop` | perp/perpd.c:660-921 | the whole loop takes such turns, one for each poll, until it is over or gives up, and ends in the state of the last; when it is over no child is left |
| `SupervisorTurns.ScriptDoes` | perp/perpd.c:783-890 | the events of a turn do what a turn is to do, from every accounted state |
| `SupervisorTurns.FirstTurnScans` | perp/perpd.c:694-695 | the first turn of the daemon scans, unless it is to terminate |
| `Packet.RequestRoundTrip` | perp/perpd_conn.c:292-316 | the daemon unpacks from a control packet the request the client packed |
| `Packet.StatusRoundTrip` | perp/perpd_conn.c:344-371 | a client reads out of a status packet what the daemon knows of the service, every flag included, and zeros for a logger it does not have |
| `Packet.SubRoundTrip` | perp/perpd_conn.c:356-367 | pid, start time and flags of a process survive the packet |
| `Packet.TainRoundTrip` | lasagna/tain/tain_pack.c:12-32 | timestamps survive packing |
| `Packet.HandleForm` | perp/perpd_conn.c:391-403 | the answer to every complete packet is one well-formed 7-byte error packet or 69-byte status packet |
| `Packet.HandleTouches` | perp/perpd_conn.c:234-323 | the table changes only for protocol 2, a control request of 21 bytes, a known service not being deactivated; and only that entry |
| `Packet.ControlReplies` | perp/perpd_conn.c:292-320 | every control packet: 2 for a service without an entry, 16 for one being deactivated, 71 for an unknown letter, all without effect; otherwise the command is carried out on the entry, the process and the reach its bytes name, and answered with 0 |
| `Packet.OtherReplies` | perp/perpd_conn.c:240-272 | every other packet changes nothing: a query gets the status of the service it names or 20, an unsupported type 95, anything else 71 |
| `Packet.Positional64` | perp/perpd_conn.c:292-293 | device and inode, byte by byte |
| `Packet.TainPositional` | lasagna/tain/tain_pack.c:12-32 | seconds and nanoseconds, byte by byte, most significant first |
| `Conn.PktReadAll` | lasagna/pkt/pkt_read.c:36-97 | reading collects the same bytes however they are split, and tells complete from incomplete |
| `Conn.FramesAppend` | perp/perpd_conn.c:56-66 | bytes within a packet add to the rest, and complete a frame exactly at its end |
| `Conn.AdvanceRefines` | perp/perpd_conn.c:461-533 | every readiness event of a client with one request at a time keeps the agreement with whole requests |
| `Conn.RunRefines` | perp/perpd_conn.c:461-533 | however requests and replies are split, requests handled are the packets received, the state is that of handling them whole, and bytes sent and still to send are the replies; reading is incomplete, writing has a whole packet with some left |
| `Conn.SplittingIrrelevant` | perp/perpd_conn.c:461-533 | two runs that delivered the same bytes agree on the state and on the replies |
| `Conn.OverrunCloses` | lasagna/pkt/pkt_read.c:87-91 | bytes beyond the packet in one read close the connection and nothing is done |
| `Conn.NothingCloses` | lasagna/pkt/pkt_read.c:63-67 | a readiness event without a byte closes the connection |
| `Conn.BrokenCloses` | lasagna/pkt/pkt_read.c:57-77 | the end of the stream or an error within a packet, after any pieces of it, closes the connection and nothing is done |
| `Conn.PipeliningDepends` | lasagna/pkt/pkt_read.c:57-91 | two requests at once: the same bytes are served or refused depending on how they are split |
| `ConnClient.Client.PktReadInto` | lasagna/pkt/pkt_read.c:36-97 | the read loop into the packet buffer |
| `ConnClient.Client.PktWriteFrom` | lasagna/pkt/pkt_write.c:32-68 | the write loop sends the bytes from the offset on, as many as the socket takes |
| `ConnClient.Client.Exec` | perp/perpd_conn.c:234-272 | checks and dispatch in the buffer are one answer, also for a malformed header, whose error reply is dispatched again |
| `ConnClient.Client.ExecControl` | perp/perpd_conn.c:279-323 | a control packet does its request and leaves the reply in the buffer |
| `ConnClient.Client.ExecQuery` | perp/perpd_conn.c:326-377 | a query leaves the status or an error in the buffer and changes no service |
| `ConnClient.Client.OnReadable` | perp/perpd_conn.c:461-499 | a read event on the record is the read event of the connection |
| `ConnClient.Client.OnWritable` | perp/perpd_conn.c:502-533 | a write event likewise, with the bytes sent |
| `Glob.CstrMatch` | lasagna/cstr/cstr_match.c:39-111 | the matcher ends, and answers 1 exactly when the pattern matches and, unless it ends with an asterisk or the text is empty, does not also match the text without its last character |
| `Glob.SafeIsRight` | lasagna/cstr/cstr_match.c:61-98 | on every pattern whose last block after an asterisk cannot fit a text twice one character apart, the answer is the match for every text |
| `Glob.RiskyIsWrong` | lasagna/cstr/cstr_match.c:83-88 | on every other pattern there is a text whose match is overlooked |
| `Glob.Overlooked` | lasagna/cstr/cstr_match.c:83-88 | "*a" matches "aa" and is answered 0 |
| `Glob.LastFails` | lasagna/cstr/cstr_match.c:83-88 | a mismatch on the last character with pattern left is a true non-match |
| `Glob.Greedy` | lasagna/cstr/cstr_match.c:62-76 | the first place a block between asterisks fits is as good as any |
| `Tx64.Encode` | lasagna/tx64/tx64_encode.c:11-58 | the bit accumulator writes exactly the encoding of section 4 of RFC 4648 and nothing beyond it |
| `Tx64.Accumulate` | lasagna/tx64/tx64_encode.c:30-45 | the letters without padding |
| `Tx64.SizeExact` | lasagna/tx64/tx64_encode.c:19-28 | the size reported for a null destination is the size written |
| `Tx64.SextetsByPosition` | lasagna/tx64/tx64_encode.c:30-39 | letter k is the k-th group of six bits of the source |
| `Tx64.SextetsRoundTrip` | lasagna/tx64/tx64_encode.c:30-45 | the groups of six bits give back the bytes |
| `Tx64.EncodedDecodes` | lasagna/tx64.h:24-34 | with distinct characters in the vector, decoding gives back the source, padded or not |

## Left out

- CdbWriter.CdbMk.Finish: asks that no subtable has 2^28 records or the check refuses all the same, because otherwise the code writes outside its buffer; `CdbWriter.CheckRightIff` says these are exactly the cases in which its check is right
- HdbWriter.HdbMk.Finish: asks the same, for the same reason (`CdbWriter.AcceptedRightIff`)
- CdbWriter.CdbMk.AddIoq: lengths are 32 bits wide; the truncation of wider `size_t` chunk sizes is not modelled, since a chunk is never larger than the buffer
- BlockLists.BlockList.Add: the record array of a block is a sequence, so its fixed allocation is only a bound; the list of blocks is linked and reversed in place
- SupervisorSpacing.RunsSpaced: assumes the clock stays a second clear of the end of 64-bit seconds, and spaces starts between activations only, because activation clears the mark
- SupervisorShutdown.ShutdownRuns: the abort of the whole daemon when forks were already failing at SIGTERM is part of `Daemon.Perpd.Turn`, not of the transition system
- Daemon.Perpd.ActivateNext: the entry counts as part of the table from the beginning of its activation; nothing looks at the table in between
- Conn.RunRefines: write errors, which close the connection, and stale connections are not happenings of a session
- interleaving: the transition system lets events come in any order, which includes every order of the main loop
- interrupted system calls, failed memory allocation, file opening and mapping, the branches that read without a map
- descriptors of the log pipe, arguments of the runscripts, names of services, logging
- what happens in a child between fork and exec, including the pause of the respawn governor, which is represented by the time a start takes effect
- whether a process sent SIGSTOP is stopped, and the pause mark a new process inherits from one that was killed while paused
- errno values are those of Linux
- `cdbmk_addrec`, `hdbmk_addrec` and `hdbmk_addioq`, case-insensitive matching, command-line programs, tinylog, runtools, and the string and buffer helpers, which would only add easy members
