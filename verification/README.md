# A verified model of the hard parts of Redis 7.4.11

This project models, in Dafny, the parts of Redis whose correctness is hardest to see from reading one function, and
proves what they are for. Code that the source runs step by step is modelled as methods and classes that update state;
each method is proved equal to a specification function, and the properties are proved about those functions, for all
inputs, all runs and all ways a system call can end.

| files | what is modelled | what is proved |
|---|---|---|
| `AofLog`, `AofLoader`, `AofLoadAny` | the encoding of the append-only file and its loader, which survives truncation | round trip; loading any prefix runs exactly the whole commands and whole transactions in it, under every configuration; what is refused; when a repaired log is durable, and when it is atomic |
| `AofRewrite`, `AofRewriteForm` | the rewriter that turns a dataset into commands | replaying its output rebuilds the dataset, in every database; the names, arguments and sizes of its commands |
| `AofFlush` | feeding the buffer, writing it, surviving short writes | no byte is lost or duplicated; after a crash the loader runs a prefix of the log |
| `AofProtocol`, `AofEffect` | the multi-file protocol: BASE and INCR files, rewrites, the manifest rename as commit point | every disk after every system call replays to the right history; what each operation brings about in every outcome, and that logging goes on once it is on |
| `AofManifest`, `AofManifestText`, `AofManifestLoad`, `AofManifestRun` | the manifest as text, its parser, its sequence numbers | which lists of entries load, as what, and with which error otherwise; print and load undo each other at the end of every run of the protocol |
| `AofRestart` | crashes at any system call and starting again from what is on disk | every start has the dataset the disk replays to; the exact condition on file names |
| `Crc64`, `Crc16`, `Gf2`, `CrcPoly`, `CrcCheck` | the slice-by-8 engines in both byte orders, the bit-by-bit reference, the tables; polynomials over the field of two elements | all of them compute the one remainder of a polynomial division; generators and check values |
| `Cluster` | hash tags, the slot of a key and of a pattern, the ranges of CLUSTER SLOTS | a pattern's slot is the slot of every key it matches; the reply is exact |
| `Sds`, `SdsRepr` | splitting a line into arguments, and writing an argument in quotes | what was written in quotes reads back; the exact condition for what was not |
| `AclRules`, `AclKeys`, `AclSelector`, `AclDescribe` | the rules of an ACL selector as a bitmap, a table of first arguments and a text that is pruned as it grows; key and channel patterns; the description of a whole selector | when the text loses nothing: replaying it, or loading the description, gives the same selector |
| `AclAccess`, `AclDecide`, `AclCheck` | what operations on a selector mean for keys, channels, commands and first arguments; checking a command against a selector | after any operations, what is permitted is what the last operation about it says |
| `Blocked`, `BlockedServe`, `BlockedOrder`, `BlockedWake`, `BlockedServer` | clients that wait for keys, the two-way index, the queue of ready keys, serving in turns | the index, counters and queue in every run; who hears a signal, who is woken, in what order, and when serving is fair |
| `Bits`, `BitField`, `BitRange`, `BitPos`, `BitCount`, `BitOp` | the bit commands with their word tricks | each is the simple operation on an infinite sequence of bits |
| `Bio` | the background-job queues, threaded and inline | order, counters, draining and completion requests in every interleaving |
| `AdList` | the doubly linked list, on the heap | every operation is its meaning on sequences; deleting while iterating |
| `Options`, `Repeats` | a value that may be missing; an element repeated | |

Conventions. A C buffer is a sequence or an array of bytes; where alignment decides the path, the address is a
parameter and the result is proved not to depend on it. What the system calls return is a parameter too, so a theorem
about all parameters covers every failure. Integer widths are written out where they matter (64-bit registers, 64-bit
bitfield arithmetic, `int` argument counts).

## Where the code does less than it seems to promise

Each of these is proved: the exact condition under which the code meets the expectation, and a theorem that it fails
otherwise.

- A log cut inside a command of an open transaction is truncated to the end of the last whole queued command, not to
  before the MULTI; the file then ends in an open transaction. The next load drops the single commands appended since;
  the EXEC of a transaction appended since runs the kept part of the cut one with it (aof.c:1606-1622, 1640-1664,
  1689-1714; `AofLoader.AppendExactly`, `AofLoader.RepairIsDurable`, `AofLoader.RepairIsAtomic`,
  `AofLoader.LostExample`, `AofLoader.PartExample`).
- A descriptor opened without O_APPEND keeps its offset across ftruncate, so a short write that is taken back is
  followed by a hole (aof.c:787, 1262-1290; `AofFlush.RunConservesExactly`, `AofProtocol.FlushExactly`,
  `AofProtocol.HoleExample`).
- What the forced flush before a rewrite does not manage to write is both in the snapshot and in the new INCR file
  (aof.c:2552-2553; `AofProtocol.LeftoverReplaysTwice`, `AofProtocol.LeftoverExample`).
- If syncing the directory fails after the manifest was renamed, the new base is unlinked although the manifest on disk
  names it, in the background rewrite as in the synchronous start (aof.c:2777-2788, 1036-1049;
  `AofProtocol.SyncFailureLosesBase`, `AofProtocol.SyncFailureLosesStart`, `AofProtocol.LostBaseExample`).
- A failed attempt to switch the append-only file on leaves its descriptor open, and a rewrite then takes the last INCR
  file for one in use (aof.c:473-503; `AofProtocol.FailedStartKeepsFd`, `AofProtocol.StaleFdReplaysTwice`,
  `AofProtocol.StaleFdExample`).
- Switched on inside a transaction while a rewrite is running, the append-only file waits for that rewrite, which has not
  been filling its buffer. When it ends well and a temporary INCR file of old is there, the log misses every write since
  the rewrite began (aof.c:962-967, 2700-2811; `AofEffect.LaterDuringRewrite`, `AofEffect.LaterExample`).
- A synchronous start that cannot rename its snapshot leaves the temporary file behind (aof.c:1011-1020;
  `AofEffect.StartTidy`).
- The first INCR file of a starting server is opened without being emptied. After a crash between the renames and the
  manifest it can be one that was never committed, and its writes come back (aof.c:725-733, 2743-2793;
  `AofRestart.StartHolds`, `AofRestart.StartExactly`, `AofRestart.ResurfaceExample`).
- The sequence number of a list that is empty is not in the manifest text and starts again after loading; a restart
  can then open a file that the history names, and delete it (aof.c:694-748, server.c:7244-7247;
  `AofManifest.RoundTripExact`, `AofManifestRun.RestartNames`, `AofManifestRun.ReuseExample`).
- A file name with a single quote, and nothing else that asks for quotes, is written into the manifest without quotes; the
  server then cannot read its manifest. The name may come from `appendfilename` (sds.c:929-940, aof.c:105-110,
  config.c:2345-2355; `AofManifestText.PrintedExactly`, `AofManifestText.QuoteExample`, `SdsRepr.PutExactly`).
- A first argument with a blank or a quote is accepted, and lost when the rules are replayed
  (`AclSelector.LosslessExactly`, `AclSelector.BlankIsLost`).
- Recomputing a selector from its rules can turn the ALLCOMMANDS flag on: when commands to come are allowed and the rule
  that cleared the flag has been pruned from the list (acl.c:551-560, 662-695; `AclDescribe.FlagKept`,
  `AclDescribe.FlagExample`).
- Reading and writing every key as a pattern of its own (`%RW~*`) is described as `~*`, which loads as allkeys; patterns
  after it are then refused, so the description of an accepted selector does not load (acl.c:328-339, 1056-1060;
  `AclKeys.KeysLoad`, `AclDescribe.SelectorLoads`, `AclKeys.StarExample`).
- BITFIELD SET with OVERFLOW SAT turns a value far below a wide signed field into its greatest value
  (`BitField.SetSaturates`, `BitField.FarBelowIsHigh`).
- A negative number that BITFIELD SET gives to an unsigned field is taken as a uint64_t, so with OVERFLOW SAT it becomes
  the greatest value (`BitField.SetExact`).
- BITFIELD makes room for its writes before it does them. If all of them fail, the string has grown, or the key is
  there, without being signalled or counted as changed (bitops.c:460-477, 1125-1132, 1255-1259;
  `BitField.ChangeUncounted`, `BitField.FailCreates`).
- The end of a range that lies before the string is taken for the first unit, so the range is not empty when its start
  does too (bitops.c:811-820; `BitRange.RangeExactly`).
- Serving a key visits each of its waiters once and in blocking order if and only if no turn makes a waiter give up that
  has its turn to come; the client that does so and blocks again can be visited twice (blocked.c:583-617;
  `BlockedOrder.ServeFair`, `BlockedOrder.TwiceExample`).

## Model

| member | source | states |
|---|---|---|
| AofLog.CatCommand | wasip2-redis/redis-7.4.11/src/aof.c:1356-1379 | appends exactly one encoded command: argument count, then every argument with its length, whatever bytes it holds |
| AofLog.EncodeConcat | wasip2-redis/redis-7.4.11/src/aof.c:1356-1379 | encoding two command lists one after the other is encoding their concatenation, so the log can be cut at any command boundary |
| AofLog.NumberOfDecimal | wasip2-redis/redis-7.4.11/src/aof.c:1583-1605 | the atoi/strtol of the loader reads back every number the encoder prints, whatever non-digit follows |
| AofLog.NumberOfSigned | wasip2-redis/redis-7.4.11/src/aof.c:1583-1605 | the same for every signed number, as the expiry times and integer-encoded elements of a rewrite are |
| AofLog.NumberOfCut | wasip2-redis/redis-7.4.11/src/aof.c:1583-1584 | a positive number cut short still reads as positive, so a cut header is never taken for the format error of a zero count |
| AofLog.HeaderRead | wasip2-redis/redis-7.4.11/src/aof.c:1573-1585 | a complete header line is read by fgets as one line, with its mark and its number |
| AofLog.ReadCommandExact | wasip2-redis/redis-7.4.11/src/aof.c:1573-1623 | reading an encoded command gives the same arguments and consumes exactly its bytes, whatever follows it |
| AofLog.ReadCommandCut | wasip2-redis/redis-7.4.11/src/aof.c:1573-1623 | a command cut anywhere strictly inside is an unexpected end of file, never a format error and never another command |
| AofLog.HeaderText | wasip2-redis/redis-7.4.11/src/aof.c:1361-1376 | a count is a star, and a length a dollar sign, followed by the decimal digits and a line end |
| AofLog.SignedText | wasip2-redis/redis-7.4.11/src/aof.c:1361-1376 | only a negative number has a sign |
| AofLog.SpellBulk | wasip2-redis/redis-7.4.11/src/aof.c:1366-1376 | an argument is its length line, its bytes and a line end |
| AofLog.EncodeExample | wasip2-redis/redis-7.4.11/src/aof.c:1356-1379 | the bytes written for SET with a value of twelve bytes, spelled out |
| AofLoader.LoadSingleAppendOnlyFile | wasip2-redis/redis-7.4.11/src/aof.c:1483-1719 | the loader loop with its offsets, its MULTI bookkeeping and its three ways to end equals the recursive description of a load, which `AofLoadAny` pins for every configuration and every way to end |
| AofLoader.LoadLog | wasip2-redis/redis-7.4.11/src/aof.c:1557-1664 | loading a log of whole commands and whole transactions runs all of them in order and leaves no transaction open |
| AofLoader.LoadCutUnit | wasip2-redis/redis-7.4.11/src/aof.c:1636-1714 | of a unit that is cut no command runs; the loader truncates to the end of the last whole queued command if the cut is inside a command of an open transaction, and to before the unit otherwise |
| AofLoader.LoadCutLog | wasip2-redis/redis-7.4.11/src/aof.c:1557-1719 | loading any non-empty prefix of a log runs exactly the units that are whole in it, never part of a transaction, and truncates to the stated length |
| AofLoader.AppendSurvives | wasip2-redis/redis-7.4.11/src/aof.c:1636-1719 | when the cut was not inside a command of an open transaction, everything appended after the repair is run by the next load |
| AofLoader.AppendLost | wasip2-redis/redis-7.4.11/src/aof.c:1636-1719 | otherwise the repaired file keeps an open MULTI with the commands queued behind it; for everything that can be appended, what the next load runs: nothing of it, unless a transaction was appended, whose EXEC runs the kept part of the cut transaction and what was appended before as one |
| AofLoader.AppendExactly | wasip2-redis/redis-7.4.11/src/aof.c:1636-1719 | the next load runs exactly what was kept whole and what was appended if and only if the cut was not inside a command of an open transaction or nothing was appended |
| AofLoader.RepairIsDurable | wasip2-redis/redis-7.4.11/src/aof.c:1636-1719 | a repaired log keeps whatever is appended to it if and only if the cut was not inside a command of a transaction whose MULTI is complete |
| AofLoader.PartRuns | wasip2-redis/redis-7.4.11/src/aof.c:1640-1664 | the next load runs part of the cut transaction if and only if a whole command of it was kept behind its MULTI and a transaction was appended |
| AofLoader.RepairIsAtomic | wasip2-redis/redis-7.4.11/src/aof.c:1640-1719 | no part of a cut transaction ever runs on the next load, whatever is appended, if and only if no command was kept behind its MULTI |
| AofLoader.LostExample | wasip2-redis/redis-7.4.11/src/aof.c:1636-1719 | such a cut: MULTI, INCR k, INCR k, EXEC cut one byte into the first INCR; the INCR k appended after the repair is never run |
| AofLoader.PartExample | wasip2-redis/redis-7.4.11/src/aof.c:1640-1719 | such a cut: one byte into the second INCR; after the same transaction has been appended whole the next load runs the first INCR of the cut one, the nested MULTI and both INCRs |
| AofLoadAny.AnyConfig | wasip2-redis/redis-7.4.11/src/aof.c:1666-1734 | for every file and configuration: the same commands run; the file is shortened only if it ends too early, aof-load-truncated is on and truncate works; in every other case its length stays, and a file that ends too early is refused |
| AofLoadAny.CutUnderAny | wasip2-redis/redis-7.4.11/src/aof.c:1666-1719 | a log cut at any byte, under every configuration: exactly the whole units run, and the file is shortened to the stated length or refused as it is |
| AofLoadAny.RefusedAfter | wasip2-redis/redis-7.4.11/src/aof.c:1625-1734 | after whole units, anything that is not of the format or not known fails the load: the units have run and the file is as it was |
| AofLoadAny.RefusedInside | wasip2-redis/redis-7.4.11/src/aof.c:1625-1734 | the same inside an open transaction, of which nothing runs |
| AofLoadAny.BadMark | wasip2-redis/redis-7.4.11/src/aof.c:1581 | a line that begins with neither # nor * is a format error |
| AofLoadAny.BadCount | wasip2-redis/redis-7.4.11/src/aof.c:1582-1585 | so is a count of arguments below one |
| AofLoadAny.BadArgument | wasip2-redis/redis-7.4.11/src/aof.c:1596-1604 | so is an argument that does not begin with a dollar sign |
| AofLoadAny.ZeroCount | wasip2-redis/redis-7.4.11/src/aof.c:1582 | a zero byte instead of the count is an error of its own, unless the file ends there without a line feed |
| AofLoadAny.UnknownRefused | wasip2-redis/redis-7.4.11/src/aof.c:1625-1634 | a whole command that nobody knows is refused |
| AofLoadAny.AnnotationSkipped | wasip2-redis/redis-7.4.11/src/aof.c:1580 | a line that begins with # is skipped wherever a command may begin, and counted in the offset |
| AofLoadAny.AnnotationsIgnored | wasip2-redis/redis-7.4.11/src/aof.c:1580 | annotations between the units of a log change nothing of what runs |
| AofLoadAny.RepairedLoadsAgain | wasip2-redis/redis-7.4.11/src/aof.c:1689-1714 | whatever the file, what a load has cut it down to loads again without an error and runs the same commands |
| AofRewrite.SelectHeader | wasip2-redis/redis-7.4.11/src/aof.c:2366 | the literal written for SELECT is the count and name of its command |
| AofRewrite.SetHeader | wasip2-redis/redis-7.4.11/src/aof.c:2391 | so is the one for SET |
| AofRewrite.HmsetHeader | wasip2-redis/redis-7.4.11/src/aof.c:2095 | so is the one for HMSET with one field |
| AofRewrite.HpexpireatHeader | wasip2-redis/redis-7.4.11/src/aof.c:2103 | so is the one for HPEXPIREAT |
| AofRewrite.PexpireatHeader | wasip2-redis/redis-7.4.11/src/aof.c:2420 | so is the one for PEXPIREAT |
| AofRewrite.LiteralCommand | wasip2-redis/redis-7.4.11/src/aof.c:2095-2424 | a literal and the bulk strings written behind it are one encoded command with exactly the announced number of arguments |
| AofRewrite.RewriteItems | wasip2-redis/redis-7.4.11/src/aof.c:1882-2120 | the counting loop over elements emits commands whose announced argument counts are exact, in runs of at most 64 elements |
| AofRewrite.RewriteHashField | wasip2-redis/redis-7.4.11/src/aof.c:2095-2111 | a field of a hash with field expiry is written as its own HMSET, followed by HPEXPIREAT if it expires |
| AofRewrite.RewriteHashFields | wasip2-redis/redis-7.4.11/src/aof.c:2093-2112 | the same for all fields in order |
| AofRewrite.RewriteObject | wasip2-redis/redis-7.4.11/src/aof.c:1882-2120 | every kind of object is written as the encoding of the commands that describe it |
| AofRewrite.RewriteEntry | wasip2-redis/redis-7.4.11/src/aof.c:2377-2424 | a key is written as its object and then, if it expires, its expiry |
| AofRewrite.RewriteDb | wasip2-redis/redis-7.4.11/src/aof.c:2365-2441 | a database with keys is written as a SELECT and its entries; one without keys is skipped |
| AofRewrite.RewriteAppendOnlyFile | wasip2-redis/redis-7.4.11/src/aof.c:2349-2443 | the whole output is the encoding of one list of commands |
| AofRewrite.ChunksCreate | wasip2-redis/redis-7.4.11/src/aof.c:1882-1955 | the commands of an aggregate, however they are split, create the key with the fold of all its elements |
| AofRewrite.ChunksAppend | wasip2-redis/redis-7.4.11/src/aof.c:1882-1955 | splitting elements over several commands adds the same elements as one command would |
| AofRewrite.ObjectReplay | wasip2-redis/redis-7.4.11/src/aof.c:1882-2120 | replaying the commands of an object where its key is free creates that key with exactly that object, and nothing else; an aggregate without elements creates nothing |
| AofRewrite.EntryReplay | wasip2-redis/redis-7.4.11/src/aof.c:2377-2424 | the same for an entry, with its expiry |
| AofRewrite.EntriesReplay | wasip2-redis/redis-7.4.11/src/aof.c:2377-2424 | replaying the entries of a database on an empty one gives exactly the keys that do not vanish |
| AofRewrite.DatasetReplay | wasip2-redis/redis-7.4.11/src/aof.c:2349-2443 | the same across databases: each SELECT reaches its database and no other database changes |
| AofRewrite.RewriteRebuilds | wasip2-redis/redis-7.4.11/src/aof.c:2349-2443 | replaying the rewriter's commands on an empty server rebuilds every database if and only if no stored aggregate is empty (the server never keeps one) |
| AofRewrite.RebuiltUnique | wasip2-redis/redis-7.4.11/src/aof.c:2349-2443 | a dataset is represented by one set of databases only, so "rebuilds" leaves no freedom |
| AofRewrite.RewrittenLogLoads | wasip2-redis/redis-7.4.11/src/aof.c:2349-2443 | the loader accepts the rewriter's bytes, runs exactly its commands, and ends with the dataset rebuilt |
| AofRewriteForm.CommandNames | wasip2-redis/redis-7.4.11/src/aof.c:1882-2425 | the names of the commands, as text |
| AofRewriteForm.ChunkCount | wasip2-redis/redis-7.4.11/src/aof.c:1882-2118 | an aggregate is written in full commands of sixty-four elements and one for the rest |
| AofRewriteForm.ElementsStand | wasip2-redis/redis-7.4.11/src/aof.c:1882-2118 | where each element of each kind of aggregate goes: which command, which place in it, scores before members and values behind fields |
| AofRewriteForm.SingleCommands | wasip2-redis/redis-7.4.11/src/aof.c:2094-2425 | the commands for a string, for an expiry and for a field with an expiry |
| AofFlush.AofWriter.AofWrite | wasip2-redis/redis-7.4.11/src/aof.c:1108-1125 | the write loop with its retries and short writes, for every list of results the system calls may return |
| AofFlush.AofWriter.FlushAppendOnlyFile | wasip2-redis/redis-7.4.11/src/aof.c:1146-1320 | the new file, buffer and recorded length after one flush, for every outcome of write and ftruncate |
| AofFlush.AofWriter.FeedAppendOnlyFile | wasip2-redis/redis-7.4.11/src/aof.c:1400-1447 | the buffer grows by the command, preceded by a SELECT when it is for a database (not -1) other than the one selected in the log |
| AofFlush.FeedReachesItsDb | wasip2-redis/redis-7.4.11/src/aof.c:1400-1447 | replaying a fed log runs every command in the database it was fed for, and one fed for -1 in the database of the command before it |
| AofFlush.WriteLoopAppends | wasip2-redis/redis-7.4.11/src/aof.c:1108-1125 | an aligned descriptor appends exactly the bytes reported as written |
| AofFlush.WriteLoopWrites | wasip2-redis/redis-7.4.11/src/aof.c:1108-1125 | from past the end of the file the loop leaves a hole and then the bytes taken, or nothing if none were taken |
| AofFlush.FlushConserves | wasip2-redis/redis-7.4.11/src/aof.c:1217-1320 | after one flush on an aligned descriptor, file followed by buffer is unchanged and the recorded length is the file length |
| AofFlush.AppendRunConserves | wasip2-redis/redis-7.4.11/src/aof.c:1108-1320 | over every run of feeds and flushes on an O_APPEND descriptor nothing is lost or duplicated, and a crash inside a write leaves a prefix |
| AofFlush.TruncateMisaligns | wasip2-redis/redis-7.4.11/src/aof.c:1236-1290 | on a descriptor opened without O_APPEND a short write that is taken back leaves the offset behind the end of the file |
| AofFlush.FullWriteBreaks | wasip2-redis/redis-7.4.11/src/aof.c:1217-1290 | from anywhere but the end of the file a full write loses soundness |
| AofFlush.SafeToFlush | wasip2-redis/redis-7.4.11/src/aof.c:1217-1320 | every possible next flush is sound if and only if the descriptor writes at the end of the file or there is nothing to write |
| AofFlush.FlushStatus | wasip2-redis/redis-7.4.11/src/aof.c:1219-1313 | after a flush writes are refused exactly when something is left to write, and the remembered size grows by what has left the buffer |
| AofFlush.FlushExact | wasip2-redis/redis-7.4.11/src/aof.c:1217-1320 | one flush is sound if and only if the descriptor stood at the end of the file or nothing left the buffer |
| AofFlush.MisalignedExactly | wasip2-redis/redis-7.4.11/src/aof.c:1236-1290 | a flush leaves the descriptor past the end of the file exactly when a short write was taken back on a descriptor without O_APPEND |
| AofFlush.RunConservesExactly | wasip2-redis/redis-7.4.11/src/aof.c:1108-1320 | over every run on any descriptor no byte is lost or duplicated at any point if and only if no flush moves bytes while the descriptor stands past the end of the file |
| AofFlush.HoleExample | wasip2-redis/redis-7.4.11/src/aof.c:1217-1290 | two bytes, of which one is written and taken back before both are written: the file holds a zero byte and then the two |
| AofFlush.CrashRecovers | wasip2-redis/redis-7.4.11/src/aof.c:1108-1719 | after a crash at any point of any run, loading the file runs the first units of the log, at least those that had reached the file, and nothing else |
| AofProtocol.AofServer.WriteFile | wasip2-redis/redis-7.4.11/src/aof.c:771-800 | creating or rewriting a file is one disk step |
| AofProtocol.AofServer.RenameFile | wasip2-redis/redis-7.4.11/src/aof.c:2722-2748 | a rename moves the content and what is open under the name |
| AofProtocol.AofServer.UnlinkFile | wasip2-redis/redis-7.4.11/src/aof.c:649-690 | an unlink removes the name; a descriptor on it stays open, detached |
| AofProtocol.AofServer.PersistAofManifest | wasip2-redis/redis-7.4.11/src/aof.c:506-589 | the manifest on disk is replaced in the one step of the rename, or not at all; the directory sync after it may still fail |
| AofProtocol.AofServer.FlushAppendOnlyFile | wasip2-redis/redis-7.4.11/src/aof.c:1146-1320 | a flush moves the first bytes of the buffer to the open file, behind a hole if the descriptor stands past the end |
| AofProtocol.AofServer.TakeBackShortWrite | wasip2-redis/redis-7.4.11/src/aof.c:1262-1290 | a short write that is taken back leaves file and buffer as they were and the descriptor past the end |
| AofProtocol.AofServer.OpenNewIncrAofForAppend | wasip2-redis/redis-7.4.11/src/aof.c:771-834 | state and result of opening the next INCR file, for every way its system calls end |
| AofProtocol.AofServer.RewriteAppendOnlyFileBackground | wasip2-redis/redis-7.4.11/src/aof.c:2537-2604 | forced flush, new INCR file, fork: state after each way this can go |
| AofProtocol.AofServer.AofDelHistoryFiles | wasip2-redis/redis-7.4.11/src/aof.c:649-673 | history files are unlinked and the manifest without them is persisted |
| AofProtocol.AofServer.AdoptSnapshot | wasip2-redis/redis-7.4.11/src/aof.c:2711-2803 | the two renames, marking history, persisting, and undoing them when one fails |
| AofProtocol.AofServer.BackgroundRewriteDoneHandler | wasip2-redis/redis-7.4.11/src/aof.c:2694-2854 | state after a finished rewrite, successful or not; what it is for is `AofEffect.DoneSwitches` and `AofEffect.DoneNames` |
| AofProtocol.AofServer.StartAppendOnlySync | wasip2-redis/redis-7.4.11/src/aof.c:959-1074 | the synchronous start of the WASI build, successful or not |
| AofProtocol.AofServer.StartAppendOnlyBackground | wasip2-redis/redis-7.4.11/src/aof.c:959-975 | the start that forks: a running rewrite is killed, unless the switch comes inside a transaction |
| AofProtocol.AofServer.StopAppendOnlyNow | wasip2-redis/redis-7.4.11/src/aof.c:934-955 | forced flush, file closed, child killed, buffer dropped |
| AofProtocol.FlushKeeps | wasip2-redis/redis-7.4.11/src/aof.c:1146-1320 | a flush at the end of the file keeps the invariant, and every disk on the way replays to what was durable before or to what is after |
| AofProtocol.FlushExactly | wasip2-redis/redis-7.4.11/src/aof.c:771-800 | a flush leaves what is durable on disk if and only if it writes nothing or its descriptor stands at the end of its file |
| AofProtocol.ShortFlushKeeps | wasip2-redis/redis-7.4.11/src/aof.c:1236-1290 | a short write that is taken back keeps the invariant; in between the disk holds a beginning of the buffer more |
| AofProtocol.OpenKeeps | wasip2-redis/redis-7.4.11/src/aof.c:771-834 | opening the next INCR file keeps invariant and replay in every outcome but a failed sync after the rename |
| AofProtocol.OpenFailAfterHolds | wasip2-redis/redis-7.4.11/src/aof.c:771-834 | even when only the directory sync fails, the disk still replays to the durable history |
| AofProtocol.BgRewriteKeeps | wasip2-redis/redis-7.4.11/src/aof.c:2537-2604 | starting a rewrite keeps the invariant and the replay of every intermediate disk |
| AofProtocol.DelHistoryKeeps | wasip2-redis/redis-7.4.11/src/aof.c:649-673 | deleting history files never touches a live file |
| AofProtocol.CommitBase | wasip2-redis/redis-7.4.11/src/aof.c:2772-2793 | renaming the manifest switches from the old replay to snapshot plus new INCR in a single step |
| AofProtocol.AdoptKeeps | wasip2-redis/redis-7.4.11/src/aof.c:2711-2803 | adopting a snapshot keeps the replay at every step; a failure before the commit leaves durable history and manifest as they were |
| AofProtocol.UndoneHolds | wasip2-redis/redis-7.4.11/src/aof.c:2748-2788 | taking back the renames after a failed commit leaves the replay as it was |
| AofProtocol.RewriteDoneKeeps | wasip2-redis/redis-7.4.11/src/aof.c:2694-2854 | the end of a rewrite keeps the invariant, and every disk on the way replays, however its steps fail, but for the two cases that SyncFailureLosesBase names |
| AofProtocol.StartKeeps | wasip2-redis/redis-7.4.11/src/aof.c:959-1074 | the synchronous start keeps the invariant and the replay of every intermediate disk |
| AofProtocol.StartForkKeeps | wasip2-redis/redis-7.4.11/src/aof.c:959-1074 | the same for the start that forks |
| AofProtocol.StopKeeps | wasip2-redis/redis-7.4.11/src/aof.c:934-955 | switching off keeps the invariant |
| AofProtocol.StepKeeps | wasip2-redis/redis-7.4.11/src/aof.c:2537-2854 | every operation keeps the invariant, and every disk it leaves replays to what was durable before or after it |
| AofProtocol.RunKeeps | wasip2-redis/redis-7.4.11/src/aof.c:2537-2854 | over every run and after every single system call, the files named by the manifest on disk exist and replay to what was durable at the start or at the end of the operation making the call |
| AofProtocol.RunSafeAt | wasip2-redis/redis-7.4.11/src/aof.c:2537-2854 | the same spelled out for the operation after any beginning of the run |
| AofProtocol.NothingMissing | wasip2-redis/redis-7.4.11/src/aof.c:2537-2854 | with the append-only file on, the replay of the disk followed by the buffer is every write ever executed |
| AofProtocol.SyncFailureLosesBase | wasip2-redis/redis-7.4.11/src/aof.c:2694-2854 | in every state of the append-only file and for every outcome of every step: after finishing a rewrite the disk replays to what is durable if and only if the rewrite failed before the commit, or it was committed with the directory synced and, with the append-only file off, without a stale descriptor in front of an INCR file that is not empty |
| AofProtocol.SyncFailureLosesStart | wasip2-redis/redis-7.4.11/src/aof.c:1042-1054 | the same for the synchronous start, where base and INCR file are both unlinked |
| AofProtocol.LostBaseExample | wasip2-redis/redis-7.4.11/src/aof.c:2776-2788 | a run that reaches it |
| AofProtocol.LeftoverReplaysTwice | wasip2-redis/redis-7.4.11/src/aof.c:2550-2604 | what the forced flush before a rewrite leaves in the buffer is replayed twice; the replay is right if and only if it left nothing |
| AofProtocol.LeftoverExample | wasip2-redis/redis-7.4.11/src/aof.c:2550-2604 | a run that reaches it: one command that the flush does not write |
| AofProtocol.HoleExample | wasip2-redis/redis-7.4.11/src/aof.c:1236-1290 | a run in which a short write is taken back and the next write leaves a hole in the log |
| AofProtocol.FailedStartKeepsFd | wasip2-redis/redis-7.4.11/src/aof.c:959-1074 | a failed start of the append-only file leaves its descriptor open |
| AofProtocol.StaleFdReplaysTwice | wasip2-redis/redis-7.4.11/src/aof.c:473-503 | a rewrite committed with the append-only file off, whether history is deleted and that fails or not: the log replays to the snapshot followed by the last INCR file if a stale descriptor is open; it replays to the snapshot if and only if none is open, there is no INCR file, or the last one is empty |
| AofProtocol.StaleFdExample | wasip2-redis/redis-7.4.11/src/aof.c:473-503 | a run that reaches it: a logged command, switching off, a failed attempt to switch on, a rewrite |
| AofEffect.FlushReaches | wasip2-redis/redis-7.4.11/src/aof.c:1146-1320 | a flush puts what it writes behind what the disk replays to, or at the end of the temporary INCR file while the first rewrite runs, keeps the rest, and touches no other file |
| AofEffect.FlushFills | wasip2-redis/redis-7.4.11/src/aof.c:1262-1313 | a descriptor past the end of the file leaves zeros in front of the next write and then stands at the end again; a short write that is taken back puts it there |
| AofEffect.StopReaches | wasip2-redis/redis-7.4.11/src/aof.c:934-955 | switching off leaves on disk every write if and only if the forced flush wrote the whole buffer |
| AofEffect.StopEnds | wasip2-redis/redis-7.4.11/src/aof.c:934-955 | from every state that is not off it ends off, with no child, no open file and no buffer |
| AofEffect.UnlinkedIsLost | wasip2-redis/redis-7.4.11/src/aof.c:649-690 | what is written to an unlinked file that is still open is nowhere |
| AofEffect.OpenReaches | wasip2-redis/redis-7.4.11/src/aof.c:771-834 | what opening the next INCR file leaves, in memory and on disk, for each way it can end |
| AofEffect.RewriteStarts | wasip2-redis/redis-7.4.11/src/aof.c:2537-2604 | a rewrite starts exactly when none runs, the next INCR file is open and recorded, and fork worked; its snapshot is every write so far and its INCR file is new and empty |
| AofEffect.HistoryDeleted | wasip2-redis/redis-7.4.11/src/aof.c:649-673 | exactly the files of the history go, and neither manifest names them any more |
| AofEffect.AdoptEnds | wasip2-redis/redis-7.4.11/src/aof.c:2711-2803 | adopting a snapshot succeeds if and only if both renames work, the manifest on disk is replaced and the directory synced; otherwise the manifest in memory stays |
| AofEffect.DoneSwitches | wasip2-redis/redis-7.4.11/src/aof.c:2694-2854 | a finished rewrite switches the append-only file on if and only if it waited for it and the manifest was replaced and synced; from off and on the state never changes; a failed first rewrite drops the buffer, no other one does |
| AofEffect.DoneNames | wasip2-redis/redis-7.4.11/src/aof.c:473-503 | which files the manifest names after a committed rewrite: base, INCR files and history, exactly |
| AofEffect.StartTidy | wasip2-redis/redis-7.4.11/src/aof.c:1003-1015 | the synchronous start leaves its temporary snapshot behind if and only if renaming it fails |
| AofEffect.StepTidy | wasip2-redis/redis-7.4.11/src/aof.c:2537-2854 | no operation leaves a file that no manifest accounts for, but for that one |
| AofEffect.RunTidy | wasip2-redis/redis-7.4.11/src/aof.c:2537-2854 | so it is over every run |
| AofEffect.StartEnds | wasip2-redis/redis-7.4.11/src/aof.c:959-1074 | the synchronous start ends on if and only if every step went well, and then the log is every write so far; otherwise it ends off with the manifest as it was |
| AofEffect.StartForkEnds | wasip2-redis/redis-7.4.11/src/aof.c:959-1080 | the start that forks waits for its rewrite if and only if file and fork work; its snapshot is every write so far |
| AofEffect.StepState | wasip2-redis/redis-7.4.11/src/aof.c:934-1080 | which operation brings the append-only file into which state |
| AofEffect.LoggingGoesOn | wasip2-redis/redis-7.4.11/src/aof.c:2537-2854 | once on and never switched off, log and buffer are what they were followed by every write since, over every run |
| AofEffect.FirstRewriteLogs | wasip2-redis/redis-7.4.11/src/aof.c:2805-2817 | after the first rewrite has committed no write is missing in log and buffer, over every run that follows |
| AofEffect.LaterDuringRewrite | wasip2-redis/redis-7.4.11/src/aof.c:962-975 | switched on inside a transaction while a rewrite runs, and that rewrite going well: the state it ends in, and when its log misses writes |
| AofEffect.LaterExample | wasip2-redis/redis-7.4.11/src/aof.c:2700-2811 | a run in which the log then misses a write |
| AofManifest.GetAofManifestAsString | wasip2-redis/redis-7.4.11/src/aof.c:173-201 | the printed manifest is the lines of base, history and INCR entries in order |
| AofManifest.FillInfo | wasip2-redis/redis-7.4.11/src/aof.c:295-315 | the key-value loop over one line: later pairs win, unknown keys are ignored, a name with a slash is an error |
| AofManifest.LoadManifestFromFile | wasip2-redis/redis-7.4.11/src/aof.c:237-348 | the line loop with its eight errors equals the recursive description of a load |
| AofManifest.SplitJoin | wasip2-redis/redis-7.4.11/src/aof.c:288-293 | tokens joined with single blanks are split into the same tokens |
| AofManifest.ReadLineExact | wasip2-redis/redis-7.4.11/src/aof.c:102-115 | a printed entry reads back as itself |
| AofManifest.LoadStep | wasip2-redis/redis-7.4.11/src/aof.c:257-348 | a printed line at the front is read as its entry and the rest is loaded after it |
| AofManifest.PlaceIncr | wasip2-redis/redis-7.4.11/src/aof.c:329-336 | INCR entries with increasing numbers are accepted in order and the last number becomes the current one |
| AofManifest.RoundTrip | wasip2-redis/redis-7.4.11/src/aof.c:173-348 | what loading a printed manifest gives, for every valid manifest: all lists as they were, and the error for the empty one |
| AofManifest.RoundTripExact | wasip2-redis/redis-7.4.11/src/aof.c:173-348 | the numbering survives too if and only if no list that was ever used is empty now |
| AofManifestText.LineText | wasip2-redis/redis-7.4.11/src/aof.c:101-116 | the line of a name that asks for no quotes, spelled out |
| AofManifestText.LineIsPrinted | wasip2-redis/redis-7.4.11/src/aof.c:101-116 | the lines of the manifest model are those of aofInfoFormat |
| AofManifestText.KeywordCase | wasip2-redis/redis-7.4.11/src/aof.c:296-309 | a keyword is recognised in any case |
| AofManifestText.BaseName | wasip2-redis/redis-7.4.11/src/util.c:1049-1051 | a name is refused if and only if it has a slash or a backslash |
| AofManifestText.SplitIsSplitArgs | wasip2-redis/redis-7.4.11/src/aof.c:288-292 | a line without quotes is split as sdssplitargs does |
| AofManifestText.PrintedExactly | wasip2-redis/redis-7.4.11/src/aof.c:101-116 | a printed line reads back if and only if quotes are asked for its name, or it has no single quote in it |
| AofManifestText.QuoteExample | wasip2-redis/redis-7.4.11/src/config.c:2345-2355 | for example the name it's, which is accepted |
| AofManifestLoad.PairsMean | wasip2-redis/redis-7.4.11/src/aof.c:294-310 | of every key the last value counts, unknown keys are skipped, and a name with a slash refuses the line |
| AofManifestLoad.LineMeans | wasip2-redis/redis-7.4.11/src/aof.c:281-316 | which lines are entries, and why others are refused |
| AofManifestLoad.CommentSkipped | wasip2-redis/redis-7.4.11/src/aof.c:272-275 | a comment is skipped, and the file is then not empty |
| AofManifestLoad.EmptyRefused | wasip2-redis/redis-7.4.11/src/aof.c:257-275 | an empty file is refused, one of comments is a manifest without files |
| AofManifestLoad.ListLoads | wasip2-redis/redis-7.4.11/src/aof.c:319-342 | a printed list of entries in any order loads if and only if nothing is wrong with any of them, as the manifest of that list; otherwise the error is that of the first wrong one |
| AofManifestRun.FileNameText | wasip2-redis/redis-7.4.11/src/aof.c:408-446 | the names of BASE and INCR files, spelled out |
| AofManifestRun.FileNameInjective | wasip2-redis/redis-7.4.11/src/aof.c:408-446 | two files never get the same name |
| AofManifestRun.SpelledApart | wasip2-redis/redis-7.4.11/src/aof.c:408-446 | file names are apart exactly when kinds and numbers are |
| AofManifestRun.SpelledValid | wasip2-redis/redis-7.4.11/src/aof.c:408-503 | every manifest of the protocol is one that can be printed and loaded |
| AofManifestRun.NamesAreApart | wasip2-redis/redis-7.4.11/src/aof.c:408-503 | no name is used twice among the live files, and no live name is a history name |
| AofManifestRun.RunRoundTrip | wasip2-redis/redis-7.4.11/src/aof.c:173-503 | at the end of every run of the protocol the manifest printed and loaded has the same base, history and INCR lists; the next numbers are the same if and only if no used list is empty |
| AofManifestRun.ReloadedIs | wasip2-redis/redis-7.4.11/src/aof.c:173-348 | what a restart reads: the manifest with the numbers of empty lists forgotten |
| AofManifestRun.RestartNames | wasip2-redis/redis-7.4.11/src/aof.c:694-748 | the file opened by a restart has a name of its own if and only if there is an INCR file to go on with or the history does not hold the first name of its kind |
| AofManifestRun.RestartDeletesLive | wasip2-redis/redis-7.4.11/src/server.c:7244-7247 | otherwise deleting the history, which follows, unlinks the file that is about to be written |
| AofManifestRun.ReuseExample | wasip2-redis/redis-7.4.11/src/aof.c:473-503 | a run that reaches it: a rewrite with the append-only file off, while history files are kept |
| AofRestart.StartExactly | wasip2-redis/redis-7.4.11/src/server.c:7244-7247 | starting from any disk that replays: the dataset is what the disk replays to, or the RDB file if the append-only file is off; and the server is in order, so that whatever follows is safe, if and only if there is an INCR file to go on with, or, when it is on, no INCR file is in the history and no content is left in a file of the first name, or, when it is off, history is deleted or holds no INCR file |
| AofRestart.StartHolds | wasip2-redis/redis-7.4.11/src/aof.c:694-749 | starting with the append-only file on leaves a log that replays to the dataset if and only if there is an INCR file to go on with, or nothing is left in a file of the first name and that name is not in a history that is deleted |
| AofRestart.StartReused | wasip2-redis/redis-7.4.11/src/aof.c:649-749 | otherwise the file about to be written is unlinked, or its number is used twice |
| AofRestart.StartLeftover | wasip2-redis/redis-7.4.11/src/aof.c:725-733 | what a file of the first name held is replayed behind the dataset, because it is opened without being emptied |
| AofRestart.StepSane | wasip2-redis/redis-7.4.11/src/aof.c:473-503 | every operation of the protocol leaves only manifests on disk whose names are older than the live ones where they are history |
| AofRestart.CrashLeaves | wasip2-redis/redis-7.4.11/src/aof.c:506-589 | a crash after any system call of any run, or while starting, leaves a disk that replays to what was durable before or after the operation, with sane names |
| AofRestart.LifeKeeps | wasip2-redis/redis-7.4.11/src/server.c:7244-7247 | over every sequence of runs, crashes at any system call and starts, with free names: every crash leaves a disk that replays, every start succeeds, and one with the append-only file on has exactly the dataset that disk replays to |
| AofRestart.EveryLife | wasip2-redis/redis-7.4.11/src/server.c:7244-7247 | so it is from an empty directory on |
| AofRestart.CrashLosesBuffer | wasip2-redis/redis-7.4.11/src/server.c:6665-6673 | a crash between two operations loses exactly what was in the buffer |
| AofRestart.ResurfaceExample | wasip2-redis/redis-7.4.11/src/aof.c:2743-2793 | a life in which the names are not free: a crash between the renames and the manifest when the append-only file is first switched on; the next start opens the INCR file that was never committed |
| Crc64.StepsLinear | wasip2-redis/redis-7.4.11/src/crcspeed.c:33-50 | the register is linear, which is why tables of single bytes are enough |
| Crc64.TableStep | wasip2-redis/redis-7.4.11/src/crcspeed.c:117-120 | one lookup does the eight steps of a byte |
| Crc64.EntryNext | wasip2-redis/redis-7.4.11/src/crcspeed.c:43-49 | the recurrence of the initialisation moves an entry to the next row |
| Crc64.SliceStep | wasip2-redis/redis-7.4.11/src/crcspeed.c:123-135 | eight lookups do the steps of eight bytes |
| Crc64.FoldConcat | wasip2-redis/redis-7.4.11/src/crcspeed.c:112-144 | the checksum of a concatenation is the chained checksum |
| Crc64.LittleInit | wasip2-redis/redis-7.4.11/src/crcspeed.c:33-50 | afterwards row k holds every byte followed by k zero bytes |
| Crc64.NestColumn | wasip2-redis/redis-7.4.11/src/crcspeed.c:43-49 | the inner loop fills one column and leaves the others |
| Crc64.CrcSpeedLittle | wasip2-redis/redis-7.4.11/src/crcspeed.c:112-144 | for every buffer, length and alignment: the byte-at-a-time fold |
| Crc64.Rev8Involution | wasip2-redis/redis-7.4.11/src/crcspeed.c:71-83 | reversing the bytes of a word twice gives the word |
| Crc64.Rev8Flat | wasip2-redis/redis-7.4.11/src/crcspeed.c:71-83 | the masks and shifts reverse the eight bytes |
| Crc64.BigInit | wasip2-redis/redis-7.4.11/src/crcspeed.c:87-95 | the big-endian tables are the little-endian ones with every entry reversed |
| Crc64.BigWord | wasip2-redis/redis-7.4.11/src/crcspeed.c:193-205 | eight lookups in the reversed tables do the steps of eight bytes on a reversed register |
| Crc64.CrcSpeedBig | wasip2-redis/redis-7.4.11/src/crcspeed.c:183-213 | for every buffer, length and alignment: the same fold as the little-endian engine |
| Crc64.CrcReflect | wasip2-redis/redis-7.4.11/src/crc64.c:69-78 | the loop moves the bits, lowest first, into the result |
| Crc64.GatherIsReflect | wasip2-redis/redis-7.4.11/src/crc64.c:69-78 | for 64 bits that is reversing the bit order |
| Crc64.BitwiseByte | wasip2-redis/redis-7.4.11/src/crc64.c:93-107 | the loop over the bits of one byte is division bit by bit |
| Crc64.BitwiseCrc | wasip2-redis/redis-7.4.11/src/crc64.c:88-111 | the reference implementation is the reflected division of the whole message |
| Crc64.RawFoldReflected | wasip2-redis/redis-7.4.11/src/crc64.c:88-111 | division bit by bit, read backwards, is the fold that the tables speed up |
| Crc64.RunIsRemainder | wasip2-redis/redis-7.4.11/src/crc64.c:88-111 | the register holds the remainder of the message times x^64 by the polynomial |
| Crc64.ChecksumIsRemainder | wasip2-redis/redis-7.4.11/src/crc64.c:88-111 | started from 0, every engine computes the reversed remainder of message times x^64 |
| Crc64.Crc64Init | wasip2-redis/redis-7.4.11/src/crc64.c:116-118 | the tables for the byte order of the machine |
| Crc64.Crc64 | wasip2-redis/redis-7.4.11/src/crc64.c:121-123 | whatever byte order and alignment: the fold, and from 0 the reversed polynomial remainder |
| Crc16.TableExact | wasip2-redis/redis-7.4.11/src/crc16.c:47-80 | all 256 constants are what dividing the byte by the polynomial leaves |
| Crc16.TableStep | wasip2-redis/redis-7.4.11/src/crc16.c:82-88 | the table update is eight steps of the division |
| Crc16.Crc16 | wasip2-redis/redis-7.4.11/src/crc16.c:82-88 | the loop computes the remainder of message times x^16 (CRC-16/XMODEM) |
| Crc16.FoldIsRemainder | wasip2-redis/redis-7.4.11/src/crc16.c:82-88 | the byte-wise fold is that remainder |
| Crc16.FoldConcat | wasip2-redis/redis-7.4.11/src/crc16.c:82-88 | the checksum of a concatenation is the chained checksum |
| Gf2.RemainderIs | wasip2-redis/redis-7.4.11/src/crc64.c:47-53 | division bit by bit finds it: a polynomial of lower degree differs from the message by a multiple of the generator if and only if it is that remainder |
| CrcPoly.RegisterIs64 | wasip2-redis/redis-7.4.11/src/crc64.c:88-111 | the coefficients in the 64-bit register are those of the polynomial remainder |
| CrcPoly.Checksum64 | wasip2-redis/redis-7.4.11/src/crc64.c:88-123 | the CRC-64 of a message from 0, read backwards, is the one polynomial of degree below 64 that differs from message times x^64 by a multiple of the generator |
| CrcPoly.Checksum16 | wasip2-redis/redis-7.4.11/src/crc16.c:36-88 | the CRC-16 of a message is the one polynomial of degree below 16 that differs from message times x^16 by a multiple of the generator |
| CrcCheck.Generator64 | wasip2-redis/redis-7.4.11/src/crc64.c:33 | the generator by its exponents |
| CrcCheck.Generator16 | wasip2-redis/redis-7.4.11/src/crc16.c:39 | so is the one of 16 bits |
| CrcCheck.CheckValue64 | wasip2-redis/redis-7.4.11/src/crc64.c:135-138 | the check value of the digits 1 to 9 |
| CrcCheck.CheckValue16 | wasip2-redis/redis-7.4.11/src/crc16.c:44 | the check value of 16 bits |
| CrcCheck.CheckSlot | wasip2-redis/redis-7.4.11/src/cluster.h:43-62 | so the key 123456789 is in slot 12739 |
| Crc16.SliceStep | wasip2-redis/redis-7.4.11/src/crcspeed.c:157-169 | eight lookups do the steps of eight bytes |
| Crc16.ByteOfLoad | wasip2-redis/redis-7.4.11/src/crcspeed.c:157-169 | byte i of a loaded word is byte i of memory |
| Crc16.Little16Init | wasip2-redis/redis-7.4.11/src/crcspeed.c:52-68 | afterwards row k holds every byte followed by k zero bytes |
| Crc16.CrcSpeed16Little | wasip2-redis/redis-7.4.11/src/crcspeed.c:146-178 | for every buffer, length and alignment: the byte-at-a-time fold |
| Cluster.KeyHashSlot | wasip2-redis/redis-7.4.11/src/cluster.h:43-62 | the slot is the checksum of the hash tag, with the unclosed and the empty tag hashing the whole key |
| Cluster.SlotIsRemainder | wasip2-redis/redis-7.4.11/src/cluster.h:43-62 | a slot is the checksum modulo 16384 |
| Cluster.HashTagExactly | wasip2-redis/redis-7.4.11/src/cluster.h:43-62 | what is hashed is what stands between the first brace and the next closing one, if that is something, and otherwise the key |
| Cluster.SpecialIs | wasip2-redis/redis-7.4.11/src/cluster.c:34-36 | which characters of a pattern are special |
| Cluster.LiteralPrefix | wasip2-redis/redis-7.4.11/src/util.c:57-191 | a key that matches a pattern starts with the literal bytes the pattern starts with |
| Cluster.TagOfKey | wasip2-redis/redis-7.4.11/src/cluster.c:29-54 | a closed non-empty tag in the literal beginning of a pattern is the hash tag of every key that matches |
| Cluster.PatternSound | wasip2-redis/redis-7.4.11/src/cluster.c:29-54 | from every point of the scan: if a slot comes out, every matching key has it |
| Cluster.PatternHashSlot | wasip2-redis/redis-7.4.11/src/cluster.c:29-54 | if a slot is returned, every key the pattern can match has that slot |
| Cluster.GivesUp | wasip2-redis/redis-7.4.11/src/cluster.c:29-54 | no slot is returned if and only if a special byte stands before any closed non-empty tag |
| Cluster.AddRange | wasip2-redis/redis-7.4.11/src/cluster.c:1386-1408 | emitting a maximal run keeps the reply exact |
| Cluster.ClusterCommandSlots | wasip2-redis/redis-7.4.11/src/cluster.c:1376-1411 | the reply lists exactly the longest runs of slots with one owner, in order, and counts them |
| Sds.SplitLine | wasip2-redis/redis-7.4.11/src/sds.c:992-1098 | the two loops with their quotes and escapes split the line as the recursive description does |
| Sds.ReadToken | wasip2-redis/redis-7.4.11/src/sds.c:1002-1080 | so does the inner one, for one argument |
| Sds.TokenPlain | wasip2-redis/redis-7.4.11/src/sds.c:992-1091 | a word without quotes and blanks is read as it is |
| Sds.TokenShort | wasip2-redis/redis-7.4.11/src/sds.c:992-1091 | an argument is never longer than its text, and as long only if the text was plain |
| Sds.SplitJoin | wasip2-redis/redis-7.4.11/src/sds.c:992-1091 | plain words joined with blanks are split into the same words |
| Sds.SplitsBack | wasip2-redis/redis-7.4.11/src/sds.c:992-1091 | a line of words reads back as those words if and only if each of them is plain |
| SdsRepr.CatRepr | wasip2-redis/redis-7.4.11/src/sds.c:896-920 | the loop writes the bytes in quotes, with the escapes |
| SdsRepr.FindNeed | wasip2-redis/redis-7.4.11/src/sds.c:929-940 | quotes are asked for if and only if some byte is a quote, a backslash, a blank or not printable |
| SdsRepr.HexDigits | wasip2-redis/redis-7.4.11/src/sds.c:944-968 | which characters are hexadecimal digits, and of which value |
| SdsRepr.SplitRepr | wasip2-redis/redis-7.4.11/src/sds.c:1009-1043 | whatever bytes were written in quotes are read back, in front of a blank or at the end |
| SdsRepr.WordEnds | wasip2-redis/redis-7.4.11/src/sds.c:1060-1067 | a blank, line feed, carriage return or tab ends a word |
| SdsRepr.BlanksSkipped | wasip2-redis/redis-7.4.11/src/sds.c:1000 | six kinds of blanks are skipped in front of an argument |
| SdsRepr.PutExactly | wasip2-redis/redis-7.4.11/src/sds.c:929-940 | a word put in quotes where they are asked for reads back if and only if they are, or it is neither empty nor has a single quote in it |
| SdsRepr.LineSplits | wasip2-redis/redis-7.4.11/src/sds.c:992-1091 | so does a line of such words |
| SdsRepr.LineExactly | wasip2-redis/redis-7.4.11/src/sds.c:992-1091 | a line of words for which no quotes are asked reads back if and only if none is empty or has a single quote |
| SdsRepr.SingleExactly | wasip2-redis/redis-7.4.11/src/sds.c:1044-1058 | text in single quotes reads back if and only if it does not end in a backslash |
| AclRules.PruneWords | wasip2-redis/redis-7.4.11/src/acl.c:565-607 | the text loop drops exactly the rules the new one subsumes and leaves a clean list |
| AclRules.PrunedWord | wasip2-redis/redis-7.4.11/src/acl.c:594-604 | which rules go when a rule is added: the same one with any sign, and those of its subcommands |
| AclRules.PrunedConcat | wasip2-redis/redis-7.4.11/src/acl.c:565-607 | the others stay, in their order |
| AclRules.LookupName | wasip2-redis/redis-7.4.11/src/server.c:3200-3242 | what a lookup finds has the name that was looked up, up to case |
| AclRules.ParseLower | wasip2-redis/redis-7.4.11/src/acl.c:1117-1194 | the case of an operation does not matter |
| AclRules.LowerIs | wasip2-redis/redis-7.4.11/src/acl.c:1026-1055 | only the letters from A to Z change case |
| AclRules.InCategoryIs | wasip2-redis/redis-7.4.11/src/acl.c:644-657 | a category is a bit of the categories of a command |
| AclRules.KeptIsOp | wasip2-redis/redis-7.4.11/src/acl.c:611-619 | the text kept for an accepted operation is the operation in lower case |
| AclRules.KeptCanonical | wasip2-redis/redis-7.4.11/src/acl.c:611-619 | it is a canonical rule that asks for the same as the operation did |
| AclRules.SubsumesCovers | wasip2-redis/redis-7.4.11/src/acl.c:565-607 | whatever a pruned rule granted, the rule that replaces it decides anew |
| AclRules.ActAgain | wasip2-redis/redis-7.4.11/src/acl.c:565-607 | so applying the new rule with or without the pruned one gives the same grant |
| AclSelector.Selector.SetCommandBit | wasip2-redis/redis-7.4.11/src/acl.c:551-560 | one bit of the bitmap; clearing one also clears the flag for all commands |
| AclSelector.Selector.ResetFirstArgsForCommand | wasip2-redis/redis-7.4.11/src/acl.c:906-913 | the first arguments of one command go, the others stay |
| AclSelector.Selector.ChangeSelectorPerm | wasip2-redis/redis-7.4.11/src/acl.c:623-636 | a command with all its subcommands |
| AclSelector.Selector.SetCommandBitsForCategory | wasip2-redis/redis-7.4.11/src/acl.c:644-657 | every command and subcommand of the category, the others as before |
| AclSelector.Selector.AddAllowedFirstArg | wasip2-redis/redis-7.4.11/src/acl.c:933-959 | one more first argument, without duplicates up to case |
| AclSelector.Selector.RemoveCommandRule | wasip2-redis/redis-7.4.11/src/acl.c:565-607 | the in-place pruning loop |
| AclSelector.Selector.UpdateCommandRules | wasip2-redis/redis-7.4.11/src/acl.c:611-619 | pruning, then the new rule at the end |
| AclSelector.Selector.SetCategory | wasip2-redis/redis-7.4.11/src/acl.c:697-706 | category rules, with the unknown category as an error that changes nothing |
| AclSelector.Selector.Allow | wasip2-redis/redis-7.4.11/src/acl.c:1117-1180 | the branch for commands, subcommands and first arguments with its errors |
| AclSelector.Selector.AddKeyPattern | wasip2-redis/redis-7.4.11/src/acl.c:1090-1099 | a key pattern that is in the list gets the permissions in addition; any other goes to the end |
| AclSelector.Selector.SetKeyPattern | wasip2-redis/redis-7.4.11/src/acl.c:1056-1099 | key patterns with their permission letters; refused after allkeys, with bad letters, or with a blank |
| AclSelector.Selector.SetChannelPattern | wasip2-redis/redis-7.4.11/src/acl.c:1100-1116 | channel patterns; refused after allchannels or with a blank |
| AclSelector.StringHasSpaces | wasip2-redis/redis-7.4.11/src/acl.c:246-251 | the loop finds a blank or a zero byte if and only if there is one |
| AclSelector.Selector.Set | wasip2-redis/redis-7.4.11/src/acl.c:1025-1200 | the new selector, or the error and no change, for every operation: commands, categories, key and channel patterns; what each operation means over runs is `AclAccess.RunMeans` and `AclDecide.RunDecides` |
| AclSelector.Selector.RecomputeCommandBits | wasip2-redis/redis-7.4.11/src/acl.c:662-695 | replaying the rule text from +@all or -@all, with the failure the source asserts against |
| AclSelector.Selector.DescribeCommandRules | wasip2-redis/redis-7.4.11/src/acl.c:748-801 | the printed rules; the internal check passes whenever the rules are lossless |
| AclSelector.CategoryGrants | wasip2-redis/redis-7.4.11/src/acl.c:644-657 | the loop over commands does to the grant what the category rule says |
| AclSelector.SetSelectorGrants | wasip2-redis/redis-7.4.11/src/acl.c:1117-1194 | an accepted rule does to bitmap and first arguments what its action says |
| AclSelector.RuleKeeps | wasip2-redis/redis-7.4.11/src/acl.c:565-619 | an accepted operation with a plain text keeps the rule list a description of bitmap and first arguments |
| AclSelector.ReplayWords | wasip2-redis/redis-7.4.11/src/acl.c:662-695 | replaying a clean canonical list gives a selector that list describes, and the list itself unchanged |
| AclSelector.RunLossless | wasip2-redis/redis-7.4.11/src/acl.c:748-801 | after every sequence of operations whose first arguments are plain, setting the rules on any selector gives the same bitmap, the same first arguments and the same rules, and leaves its patterns alone |
| AclSelector.LosslessExactly | wasip2-redis/redis-7.4.11/src/acl.c:1117-1194 | an accepted rule leaves a lossless description if and only if it is not a first argument with a blank or a quote |
| AclSelector.BlankIsLost | wasip2-redis/redis-7.4.11/src/acl.c:1167-1178 | such an operation: +get|a b |
| AclSelector.QuotedLost | wasip2-redis/redis-7.4.11/src/acl.c:1167-1178 | every such operation loses its first argument in the replay |
| AclSelector.DescriptionLoads | wasip2-redis/redis-7.4.11/src/acl.c:748-801 | the printed description given to a new selector grants the same again and prints the same |
| AclKeys.SetKeysKeeps | wasip2-redis/redis-7.4.11/src/acl.c:1026-1116 | every accepted operation keeps the lists of patterns without repetition, and empty when everything is allowed anyway |
| AclKeys.KeysLoad | wasip2-redis/redis-7.4.11/src/acl.c:803-831 | the described key and channel patterns set the same patterns again if and only if reading and writing every key is not a pattern of its own; if it is, the last pattern or not decides between losing the list and being refused |
| AclKeys.StarExample | wasip2-redis/redis-7.4.11/src/acl.c:328-339 | such a selector: %RW~* and ~a are accepted, and their description ~* ~a is refused |
| AclDescribe.SplitWords | wasip2-redis/redis-7.4.11/src/sds.c:834-869 | words without blanks, joined with blanks, split back |
| AclDescribe.SelectorLoads | wasip2-redis/redis-7.4.11/src/acl.c:803-838 | the whole description of a selector, split at its blanks and given to a new selector, makes the same selector again if and only if reading and writing every key is not a pattern of its own |
| AclDescribe.RunLoads | wasip2-redis/redis-7.4.11/src/acl.c:803-838 | so it is after every sequence of operations whose first arguments are plain, whatever the default for channels |
| AclDescribe.RuleFlag | wasip2-redis/redis-7.4.11/src/acl.c:551-560 | an accepted rule clears the ALLCOMMANDS flag if and only if it takes a command away |
| AclDescribe.FlagReplayed | wasip2-redis/redis-7.4.11/src/acl.c:662-695 | after a replay the flag is set if and only if commands to come are allowed and no rule of the list takes a command away |
| AclDescribe.FlagKept | wasip2-redis/redis-7.4.11/src/acl.c:662-695 | a replay never drops the flag, and leaves it as it was if and only if it was set, or commands to come are not allowed, or a rule that takes a command away is still in the list |
| AclDescribe.RunFlag | wasip2-redis/redis-7.4.11/src/acl.c:662-695 | so it is after every sequence of operations whose first arguments are plain |
| AclDescribe.FlagExample | wasip2-redis/redis-7.4.11/src/acl.c:551-607 | a run after which the replay turns the flag on: +@all, -get, +get |
| AclAccess.PermissionsExactly | wasip2-redis/redis-7.4.11/src/acl.c:1061-1084 | a percent operation is well formed if and only if its letters are, and asks for what they say |
| AclAccess.SetKeysMeans | wasip2-redis/redis-7.4.11/src/acl.c:1026-1116 | what every accepted operation about keys and channels does, and when and why one is refused |
| AclAccess.RunMeans | wasip2-redis/redis-7.4.11/src/acl.c:1026-1116 | after any operations on any selector: a pattern permits reading or writing, and a channel is listed, exactly when it was given since patterns were last cleared; all keys and all channels likewise |
| AclAccess.KeysForgotten | wasip2-redis/redis-7.4.11/src/acl.c:1026-1033 | after resetkeys or allkeys, in any case, no pattern is left and nothing depends on what came before; channels are as they were |
| AclAccess.ChannelsForgotten | wasip2-redis/redis-7.4.11/src/acl.c:1034-1041 | the same for resetchannels and allchannels, with keys as they were |
| AclDecide.RunDecides | wasip2-redis/redis-7.4.11/src/acl.c:1042-1195 | after any operations a command is allowed exactly when the last one about it, by name, category or all, says so |
| AclDecide.RunArgs | wasip2-redis/redis-7.4.11/src/acl.c:1117-1195 | a first argument is allowed exactly when it was given and no later operation was about its command as a whole |
| AclDecide.UnsignedRefused | wasip2-redis/redis-7.4.11/src/acl.c:1195-1198 | an operation that is none of the known words and has no sign is invalid |
| AclDecide.CategoryRefused | wasip2-redis/redis-7.4.11/src/acl.c:1189-1194 | a category is refused if and only if it does not exist |
| AclDecide.NameRefused | wasip2-redis/redis-7.4.11/src/acl.c:1117-1188 | so is a command to deny, or to allow by a name without bar |
| AclDecide.BarRefused | wasip2-redis/redis-7.4.11/src/acl.c:1126-1177 | what is allowed behind a bar, and the three errors |
| AclDecide.LookupFinds | wasip2-redis/redis-7.4.11/src/acl.c:896-900 | every command is found by its name in any case |
| AclDecide.LookupFindsSub | wasip2-redis/redis-7.4.11/src/acl.c:896-900 | so is every subcommand, by its container, a bar and its name |
| AclCheck.CheckKey | wasip2-redis/redis-7.4.11/src/acl.c:1571-1595 | one pattern must permit all that is done to the key, and match it |
| AclCheck.CheckChannel | wasip2-redis/redis-7.4.11/src/acl.c:1636-1653 | a channel matches some pattern, and a pattern to subscribe to is listed as it is |
| AclCheck.CheckCmd | wasip2-redis/redis-7.4.11/src/acl.c:1678-1746 | the verdict is the first thing that is not permitted: the command, then its keys in order, then its channels |
| AclCheck.RunPermits | wasip2-redis/redis-7.4.11/src/acl.c:1678-1710 | after any operations a command may be run exactly when the last one about it allows it, or its first argument was allowed since |
| AclCheck.RunKeyPermits | wasip2-redis/redis-7.4.11/src/acl.c:1571-1595 | after any operations a key may be used exactly when some text that matches it was given with the permissions needed, or all keys are allowed |
| AclCheck.RunChannelPermits | wasip2-redis/redis-7.4.11/src/acl.c:1636-1653 | the same for channels |
| AclSelector.FutureKept | wasip2-redis/redis-7.4.11/src/acl.c:539-560 | no rule but +@all and -@all changes the reserved bit |
| AclSelector.CommandIds.GetCommandID | wasip2-redis/redis-7.4.11/src/acl.c:1522-1547 | one identifier per name for ever, different names different ones, given out one after the other without the reserved one, so the first 1023 fit in the bitmap |
| AclSelector.RegisteredApart | wasip2-redis/redis-7.4.11/src/acl.c:1522-1547 | so a table of differently named commands has identifiers that are apart |
| Blocked.OnceInList | wasip2-redis/redis-7.4.11/src/blocked.c:389-421 | a client is in the list of a key exactly once, at the node its own table names, if the key is in that table, and not at all otherwise |
| Blocked.RegisterKeeps | wasip2-redis/redis-7.4.11/src/blocked.c:389-421 | entering one key on both sides keeps the index; a key the client already waits for is skipped |
| Blocked.DropKeeps | wasip2-redis/redis-7.4.11/src/blocked.c:526-559 | taking entries out of both sides keeps the index, removes empty lists and counts down the missing-key table |
| Blocked.BlockKeeps | wasip2-redis/redis-7.4.11/src/blocked.c:378-429 | blocking on keys keeps index, counters and ready queue in order |
| Blocked.BlockOtherKeeps | wasip2-redis/redis-7.4.11/src/blocked.c:67-79 | so does blocking for any other reason |
| Blocked.UnblockKeeps | wasip2-redis/redis-7.4.11/src/blocked.c:164-206 | so does unblocking |
| Blocked.ReplyKeeps | wasip2-redis/redis-7.4.11/src/blocked.c:739-758 | so do timeout and error |
| Blocked.ReleaseKeeps | wasip2-redis/redis-7.4.11/src/blocked.c:526-559 | so does releasing keys one by one |
| Blocked.SignalKeeps | wasip2-redis/redis-7.4.11/src/blocked.c:466-513 | signalling a key queues it at most once |
| Blocked.SignalReaches | wasip2-redis/redis-7.4.11/src/blocked.c:466-513 | the quick exits never lose a wake-up among the clients blocked for the type that goes with the signalled value; `BlockedWake.InterestedHears` says the same for each pair of types by name |
| Blocked.TakeKeeps | wasip2-redis/redis-7.4.11/src/blocked.c:341-366 | taking the queue and taking its first key keep set and queue in step |
| BlockedServe.RotateKeeps | wasip2-redis/redis-7.4.11/src/adlist.c:357-369 | rotating a wait list keeps the index |
| BlockedServe.ScriptKeeps | wasip2-redis/redis-7.4.11/src/blocked.c:661-713 | whatever a reprocessed command does through these operations keeps the invariant |
| BlockedServe.VisitKeeps | wasip2-redis/redis-7.4.11/src/blocked.c:583-617 | one turn of the serving loop keeps the invariant |
| BlockedServe.ServeKeeps | wasip2-redis/redis-7.4.11/src/blocked.c:572-619 | serving a key keeps the invariant within its number of turns |
| BlockedServe.StepKeeps | wasip2-redis/redis-7.4.11/src/blocked.c:325-619 | every step keeps index, counters and queue |
| BlockedServe.RunKeeps | wasip2-redis/redis-7.4.11/src/blocked.c:325-619 | every run from the empty server keeps index, counters and queue |
| BlockedOrder.ScriptOrder | wasip2-redis/redis-7.4.11/src/blocked.c:676-710 | while a woken client runs its command again, the list of the key loses exactly the clients it makes give up and gains at most that client, at the end |
| BlockedOrder.VisitOrder | wasip2-redis/redis-7.4.11/src/blocked.c:583-617 | one turn: the first waiter has it, those it makes give up are gone, the others keep their places, and it stands behind them or is gone |
| BlockedOrder.EveryWaiter | wasip2-redis/redis-7.4.11/src/blocked.c:572-619 | whatever the commands do: first visits are in blocking order, an initial waiter is visited if and only if nobody makes it give up before its turn, and who waits afterwards has had a turn |
| BlockedOrder.TurnOrder | wasip2-redis/redis-7.4.11/src/blocked.c:583-617 | a turn that makes nobody still to come give up: the next of the initial waiters has it, and the others stand in order behind |
| BlockedOrder.ServeFair | wasip2-redis/redis-7.4.11/src/blocked.c:572-619 | the visits are the initial waiters, each once and in blocking order, if and only if no turn makes a waiter give up that has its turn to come; then those left keep their order |
| BlockedOrder.TwiceExample | wasip2-redis/redis-7.4.11/src/blocked.c:583-617 | a run that is not fair: the first of two waiters makes the second give up and blocks again, and is visited twice |
| BlockedWake.SignalExactly | wasip2-redis/redis-7.4.11/src/blocked.c:466-513 | a signal queues the key if and only if clients can block for that kind of value, some blocked client may be interested, somebody waits for the key and it is not queued; otherwise nothing happens |
| BlockedWake.InterestedHears | wasip2-redis/redis-7.4.11/src/blocked.c:440-513 | a client blocked for lists, sorted sets, streams or by a module never misses a signal for a key it waits for and that kind of value |
| BlockedWake.BlockSets | wasip2-redis/redis-7.4.11/src/blocked.c:378-429 | blocking: the client waits for exactly those keys, at the end of each list, and nothing changes for anyone else |
| BlockedWake.UnblockSets | wasip2-redis/redis-7.4.11/src/blocked.c:164-206 | unblocking: it waits for nothing any more, its command stays to be run again |
| BlockedWake.ReplySets | wasip2-redis/redis-7.4.11/src/blocked.c:739-758 | the same without running the command again |
| BlockedWake.ComeAndGo | wasip2-redis/redis-7.4.11/src/networking.c:1650-1660 | a new client waits for nothing; one that is freed is in no list any more |
| BlockedWake.TurnPasses | wasip2-redis/redis-7.4.11/src/blocked.c:583-617 | a head waiter whose kind of value is not there, that is no module and did not ask about missing keys, only goes to the end of the line |
| BlockedWake.TurnWakes | wasip2-redis/redis-7.4.11/src/blocked.c:583-617 | one whose kind of value is there, or that asked about missing keys, is unblocked and its command runs again |
| BlockedWake.ModuleTurn | wasip2-redis/redis-7.4.11/src/blocked.c:583-617 | one that a module blocked is left to the module |
| BlockedWake.BlocksAgain | wasip2-redis/redis-7.4.11/src/blocked.c:661-713 | a command that runs again may block its client again, for lists, sorted sets or streams |
| BlockedWake.StepQueue | wasip2-redis/redis-7.4.11/src/blocked.c:325-366 | serving takes the first key of the queue; every other step only adds at the end |
| BlockedWake.ServedInOrder | wasip2-redis/redis-7.4.11/src/blocked.c:325-366 | over every run keys are served in the order in which they were queued |
| BlockedWake.StoringWakes | wasip2-redis/redis-7.4.11/src/blocked.c:466-617 | storing a value of the kind it waits for unblocks the first client waiting for the key before anyone else has a turn |
| BlockedServer.UnlinkIsWithout | wasip2-redis/redis-7.4.11/src/adlist.c:173-187 | unlinking a node takes exactly that one node out of the list |
| BlockedServer.ReleasedIs | wasip2-redis/redis-7.4.11/src/blocked.c:526-559 | the three tables after releasing an entry are the key side of the index without it |
| BlockedServer.UnlinkedStep | wasip2-redis/redis-7.4.11/src/blocked.c:433-447 | releasing one more key is one more step of releasing all |
| BlockedServer.Server.BlockClient | wasip2-redis/redis-7.4.11/src/blocked.c:67-79 | flags and counters |
| BlockedServer.Server.BlockForKeys | wasip2-redis/redis-7.4.11/src/blocked.c:378-429 | both sides of the index, the missing-key counts and the client |
| BlockedServer.Server.ReleaseBlockedEntry | wasip2-redis/redis-7.4.11/src/blocked.c:526-559 | one entry out of the list, and out of the table of the client if asked |
| BlockedServer.Server.UnblockClientWaitingData | wasip2-redis/redis-7.4.11/src/blocked.c:433-447 | all entries of a client |
| BlockedServer.Server.UnblockClient | wasip2-redis/redis-7.4.11/src/blocked.c:164-206 | index, counters, flags and the pending command |
| BlockedServer.Server.UnblockClientOnTimeout | wasip2-redis/redis-7.4.11/src/blocked.c:739-758 | the same, and the pending command is dropped |
| BlockedServer.Server.SignalKeyAsReady | wasip2-redis/redis-7.4.11/src/blocked.c:466-513 | the three quick exits, queue and set; who is reached is `BlockedWake.SignalExactly` |
| BlockedServer.Server.UnblockClientOnKey | wasip2-redis/redis-7.4.11/src/blocked.c:661-713 | the entry goes first, then the client is unblocked and its command runs again |
| BlockedServer.Server.VisitHead | wasip2-redis/redis-7.4.11/src/blocked.c:583-617 | the turn of the loop, rotation included; who is woken by it is `BlockedWake.TurnWakes` and `BlockedWake.TurnPasses` |
| BlockedServer.Server.HandleClientsBlockedOnKey | wasip2-redis/redis-7.4.11/src/blocked.c:572-619 | the whole loop; who was visited, and the state after it |
| BlockedServer.Server.TakeReadyKeys | wasip2-redis/redis-7.4.11/src/blocked.c:341-349 | the queue becomes the list being drained and a new one starts |
| BlockedServer.Server.ServeFirst | wasip2-redis/redis-7.4.11/src/blocked.c:351-365 | the first key leaves list and set and is then served |
| Bits.FieldOfStore | wasip2-redis/redis-7.4.11/src/bitops.c:188-220 | what is stored in a field is read back, reduced to its width |
| Bits.FieldElsewhere | wasip2-redis/redis-7.4.11/src/bitops.c:188-220 | a field that does not overlap is as before |
| BitField.SetUnsignedBitfield | wasip2-redis/redis-7.4.11/src/bitops.c:188-201 | the bit loop stores the low bits of the value and changes no other bit |
| BitField.GetUnsignedBitfield | wasip2-redis/redis-7.4.11/src/bitops.c:208-220 | the bit loop reads the number in the field |
| BitField.GetSignedBitfield | wasip2-redis/redis-7.4.11/src/bitops.c:222-243 | sign extension in 64 bits gives the signed number |
| BitField.SetSignedBitfield | wasip2-redis/redis-7.4.11/src/bitops.c:203-206 | storing a negative number stores its two's complement |
| BitField.CheckUnsignedBitfieldOverflow | wasip2-redis/redis-7.4.11/src/bitops.c:267-302 | overflow is reported exactly when the sum does not fit, in either direction, and wrapping and saturating give sum modulo width and nearer bound |
| BitField.CheckSignedBitfieldOverflow | wasip2-redis/redis-7.4.11/src/bitops.c:304-357 | the same for signed fields up to 64 bits, without overflowing its own arithmetic |
| BitField.SetSaturates | wasip2-redis/redis-7.4.11/src/bitops.c:304-357 | setting an out-of-range value saturates to the nearer bound if and only if it is not too far below |
| BitField.FarBelowIsHigh | wasip2-redis/redis-7.4.11/src/bitops.c:304-357 | for example -2^63 set into 63 bits becomes the greatest value |
| BitField.WriteReads | wasip2-redis/redis-7.4.11/src/bitops.c:1142-1218 | a value that fits is read back from the field and no other bit changes |
| BitField.WrappedFits | wasip2-redis/redis-7.4.11/src/bitops.c:267-357 | the wrapped value fits and differs by a multiple of 2^bits |
| BitField.IncrByExact | wasip2-redis/redis-7.4.11/src/bitops.c:1142-1218 | INCRBY leaves the exact sum, the sum modulo 2^bits, the nearer bound or the old value; the reply says which; no bit outside the field changes |
| BitField.SetExact | wasip2-redis/redis-7.4.11/src/bitops.c:1142-1218 | SET replies with what the field held, or null exactly when overflow is to fail and the number does not fit; the field then holds the number, one congruent to it or a bound, and no other bit changes |
| BitField.RepliesInTurn | wasip2-redis/redis-7.4.11/src/bitops.c:1138-1252 | each operation is answered in its turn from the bits the ones before it have left |
| BitField.WriteChanges | wasip2-redis/redis-7.4.11/src/bitops.c:1165-1216 | a number written changes a bit exactly when it is not the number that was there |
| BitField.ChangeUncounted | wasip2-redis/redis-7.4.11/src/bitops.c:1125-1259 | a string changes without being counted as changed if and only if it grew for writes that then all failed |
| BitField.FailCreates | wasip2-redis/redis-7.4.11/src/bitops.c:1125-1259 | for example a byte set to 256 in a missing key |
| BitField.HighestWrite | wasip2-redis/redis-7.4.11/src/bitops.c:1087-1096 | the last bit that a write needs, and whether there is any write |
| BitField.NineBytes | wasip2-redis/redis-7.4.11/src/bitops.c:1233-1239 | the nine bytes copied for GET are those of the string followed by zeros |
| BitField.NineBytesField | wasip2-redis/redis-7.4.11/src/bitops.c:1219-1251 | the field read in them is the field of the zero-padded string |
| BitField.ReadField | wasip2-redis/redis-7.4.11/src/bitops.c:1219-1251 | GET through the buffer is the direct read |
| BitField.UpdateSigned | wasip2-redis/redis-7.4.11/src/bitops.c:1152-1183 | the signed branch of SET and INCRBY is the operation on the infinite bit array, which `BitField.SetExact` and `BitField.IncrByExact` pin |
| BitField.UpdateUnsigned | wasip2-redis/redis-7.4.11/src/bitops.c:1184-1218 | so is the unsigned branch |
| BitField.MakeRoom | wasip2-redis/redis-7.4.11/src/bitops.c:460-477 | growing the string adds zero bits only |
| BitField.BitfieldGeneric | wasip2-redis/redis-7.4.11/src/bitops.c:1087-1259 | any list of operations gives the bits, the length, the replies and the count of changes of the infinite zero-padded bit array |
| BitRange.MasksAt | wasip2-redis/redis-7.4.11/src/bitops.c:818-825 | the edge masks cover the bits before the first and behind the last of the range |
| BitRange.NormalizedBounds | wasip2-redis/redis-7.4.11/src/bitops.c:812-817 | negative and out-of-range bounds are brought into the string |
| BitRange.NormalizedMeans | wasip2-redis/redis-7.4.11/src/bitops.c:811-820 | what a negative index counts from, unit by unit; an end before the string is taken for the first unit |
| BitRange.RangeExactly | wasip2-redis/redis-7.4.11/src/bitops.c:811-820 | the range is the one asked for if and only if the end does not lie before the string or the start lies behind its first unit |
| BitPos.FirstInLeast | wasip2-redis/redis-7.4.11/src/bitops.c:73-80 | the reference is the least position holding the bit, or -1 exactly when there is none |
| BitPos.LoadedBit | wasip2-redis/redis-7.4.11/src/bitops.c:130-138 | bit t of the loaded word is bit t of the bytes, zero behind the end |
| BitPos.SkipWords | wasip2-redis/redis-7.4.11/src/bitops.c:97-121 | the byte and word loops skip only units without the bit |
| BitPos.FoundInWord | wasip2-redis/redis-7.4.11/src/bitops.c:145-159 | the first match in the last word is the position |
| BitPos.RedisBitpos | wasip2-redis/redis-7.4.11/src/bitops.c:80-165 | for every buffer, length, alignment and size of an unsigned long: the least position, -1 for a missing 1, the first bit behind the end for a missing 0 |
| BitPos.FramedSearch | wasip2-redis/redis-7.4.11/src/bitops.c:963-972 | searching a byte whose bits outside the range are masked is searching the range |
| BitPos.Search | wasip2-redis/redis-7.4.11/src/bitops.c:960-989 | the search in up to three parts finds the first match in the bit range |
| BitPos.AnswerMeans | wasip2-redis/redis-7.4.11/src/bitops.c:867-1003 | the answer is the first bit asked for that is like the one looked for; otherwise -1, or the first bit behind the string when a clear bit is looked for up to its end |
| BitPos.BitposCommand | wasip2-redis/redis-7.4.11/src/bitops.c:912-1003 | the reply for byte and bit ranges, with and without an end |
| BitCount.TableExact | wasip2-redis/redis-7.4.11/src/bitops.c:23 | the 256 constants are the numbers of bits |
| BitCount.CountedLow | wasip2-redis/redis-7.4.11/src/bitops.c:45-58 | no borrow or carry crosses a byte lane in the low half of a word |
| BitCount.CountedHigh | wasip2-redis/redis-7.4.11/src/bitops.c:45-58 | nor in the high half |
| BitCount.AddBytes | wasip2-redis/redis-7.4.11/src/bitops.c:59-65 | adding counted words overflows no lane |
| BitCount.TotalIsSum | wasip2-redis/redis-7.4.11/src/bitops.c:59-65 | the multiplication adds up the lanes |
| BitCount.Count28 | wasip2-redis/redis-7.4.11/src/bitops.c:33-66 | 28 bytes at a time count the bits of those bytes |
| BitCount.RedisPopcount | wasip2-redis/redis-7.4.11/src/bitops.c:19-71 | for every buffer, length and alignment: the sum of the bits |
| BitCount.CountIsSize | wasip2-redis/redis-7.4.11/src/bitops.c:19-71 | that sum is the size of the set of set positions |
| BitCount.FirstEdge | wasip2-redis/redis-7.4.11/src/bitops.c:853-858 | the masked first byte counts the bits before the range |
| BitCount.LastEdge | wasip2-redis/redis-7.4.11/src/bitops.c:853-859 | the masked last byte counts the bits behind it |
| BitCount.CountRange | wasip2-redis/redis-7.4.11/src/bitops.c:851-862 | whole bytes minus edges is the count of the range, even when both ends share a byte |
| BitCount.AnswerMeans | wasip2-redis/redis-7.4.11/src/bitops.c:775-853 | the answer is the number of bits asked for that are set |
| BitCount.BitcountCommand | wasip2-redis/redis-7.4.11/src/bitops.c:802-862 | the reply for byte and bit ranges and for missing keys |
| BitOp.WordBytes | wasip2-redis/redis-7.4.11/src/bitops.c:671-721 | working on words is working on each byte |
| BitOp.CombineFour | wasip2-redis/redis-7.4.11/src/bitops.c:672-721 | four words of any size up to eight bytes at once change exactly those bytes |
| BitOp.FastPath | wasip2-redis/redis-7.4.11/src/bitops.c:662-722 | the fast path has the right result as far as it went, for every size of an unsigned long up to eight bytes |
| BitOp.Absorbed | wasip2-redis/redis-7.4.11/src/bitops.c:729-747 | leaving off at 0 for AND or 0xff for OR changes nothing |
| BitOp.SlowByte | wasip2-redis/redis-7.4.11/src/bitops.c:726-749 | one byte of the slow loop, early exit included |
| BitOp.BitopCommand | wasip2-redis/redis-7.4.11/src/bitops.c:617-749 | the result is the bytewise operation on the sources padded with zeros up to the longest, and NOT of several keys is an error |
| BitOp.ResultBits | wasip2-redis/redis-7.4.11/src/bitops.c:617-749 | bit by bit the result is the conjunction, disjunction, parity or complement of the zero-padded sources |
| BitOp.LongestLength | wasip2-redis/redis-7.4.11/src/bitops.c:622-648 | the result is as long as the longest source |
| Bio.StepKeeps | wasip2-redis/redis-7.4.11/src/bio.c:189-388 | every step of submitters, workers and drains keeps queues, counters and logs in order |
| Bio.RunKeeps | wasip2-redis/redis-7.4.11/src/bio.c:189-388 | so does every interleaving |
| Bio.EveryInterleaving | wasip2-redis/redis-7.4.11/src/bio.c:189-388 | each type counter is the number of queued jobs of its type, and each worker has processed a prefix of what it was given, each job once |
| Bio.DrainWaits | wasip2-redis/redis-7.4.11/src/bio.c:402-410 | a drain returns only when all jobs its worker was given before are processed |
| Bio.CompletionIsLate | wasip2-redis/redis-7.4.11/src/bio.c:318-332 | a completion request is published only after everything its worker was given before it |
| Bio.NeverOvertakes | wasip2-redis/redis-7.4.11/src/bio.c:58-66 | in every interleaving closing the append-only file never comes before a sync submitted earlier, and a completion never before what it completes |
| Bio.DrainedBefore | wasip2-redis/redis-7.4.11/src/bio.c:402-410 | when a drain returns, every job that must not be overtaken by one of its type and was submitted before has been processed |
| Bio.DrainEnds | wasip2-redis/redis-7.4.11/src/bio.c:402-410 | a drain that has returned may be called again, and nothing else has changed |
| Bio.HandedOver | wasip2-redis/redis-7.4.11/src/bio.c:318-332 | exactly the completion requests among the processed jobs are handed over |
| Bio.InlineIsThreaded | wasip2-redis/redis-7.4.11/src/bio.c:189-204 | the inline mode gives per-worker orders and completions that some threaded interleaving also gives |
| Bio.EagerStep | wasip2-redis/redis-7.4.11/src/bio.c:189-204 | one inline submission is one submission and a full turn of its worker |
| Bio.BioState.SubmitJob | wasip2-redis/redis-7.4.11/src/bio.c:189-204 | the job goes to the tail of its worker's queue and its counter goes up |
| Bio.BioState.SubmitJobInline | wasip2-redis/redis-7.4.11/src/bio.c:189-204 | the WASI branch: the job is processed at once |
| Bio.BioState.ProcessJob | wasip2-redis/redis-7.4.11/src/bio.c:273-336 | what other threads see of a processed job |
| Bio.BioState.PickJob | wasip2-redis/redis-7.4.11/src/bio.c:361-374 | the head of the queue is taken up, and stays queued |
| Bio.BioState.RunJob | wasip2-redis/redis-7.4.11/src/bio.c:376-379 | the job is done outside the mutex |
| Bio.BioState.FinishJob | wasip2-redis/redis-7.4.11/src/bio.c:381-387 | the node leaves the queue and the counter goes down |
| Bio.BioState.PendingJobsOfType | wasip2-redis/redis-7.4.11/src/bio.c:391-399 | the number of queued jobs of the type |
| Bio.BioState.PipeReadJobCompList | wasip2-redis/redis-7.4.11/src/bio.c:437-466 | the published list is taken whole and delivered in order |
| AdList.List.LinkNodeHead | wasip2-redis/redis-7.4.11/src/adlist.c:84-95 | the node is the new first; head, tail, length and all links are those of the new sequence |
| AdList.List.LinkNodeTail | wasip2-redis/redis-7.4.11/src/adlist.c:117-128 | the node is the new last |
| AdList.List.AddNodeHead | wasip2-redis/redis-7.4.11/src/adlist.c:70-79 | a fresh node with the value in front |
| AdList.List.AddNodeTail | wasip2-redis/redis-7.4.11/src/adlist.c:103-112 | a fresh node with the value at the end |
| AdList.List.InsertNode | wasip2-redis/redis-7.4.11/src/adlist.c:130-157 | a fresh node before or after the given one, everything else in place |
| AdList.List.UnlinkNode | wasip2-redis/redis-7.4.11/src/adlist.c:173-187 | exactly the one node is taken out and points nowhere |
| AdList.List.DelNode | wasip2-redis/redis-7.4.11/src/adlist.c:163-168 | the list without the node |
| AdList.List.RotateTailToHead | wasip2-redis/redis-7.4.11/src/adlist.c:342-354 | the last node becomes the first |
| AdList.List.RotateHeadToTail | wasip2-redis/redis-7.4.11/src/adlist.c:357-369 | the first node becomes the last |
| AdList.List.Join | wasip2-redis/redis-7.4.11/src/adlist.c:373-389 | the other list is appended and left empty |
| AdList.List.Index | wasip2-redis/redis-7.4.11/src/adlist.c:327-339 | the node at the index, counted from the tail if negative, or null |
| AdList.List.SearchKey | wasip2-redis/redis-7.4.11/src/adlist.c:302-320 | the first node that matches, or null exactly when none does |
| AdList.List.Dup | wasip2-redis/redis-7.4.11/src/adlist.c:257-291 | a fresh list of the copied values in order, or null exactly when a value cannot be copied |
| AdList.ListIter.Next | wasip2-redis/redis-7.4.11/src/adlist.c:236-247 | the iterator gives out the next node of its direction, or null at the end |
| AdList.DeleteHere | wasip2-redis/redis-7.4.11/src/adlist.c:222-247 | deleting the node just given out leaves the iterator in its place |
| AdList.DeleteWhileIterating | wasip2-redis/redis-7.4.11/src/adlist.c:222-247 | walking while deleting visits every node the list had exactly once, in order, and leaves the others |
| AdList.DeleteWhileIteratingBack | wasip2-redis/redis-7.4.11/src/adlist.c:217-247 | the same from the tail, in the opposite order |
| AdList.InsertedLinks | wasip2-redis/redis-7.4.11/src/adlist.c:130-157 | the links around an inserted node are those of the new sequence |
| AdList.JoinedLinks | wasip2-redis/redis-7.4.11/src/adlist.c:373-389 | the links around a join are those of the concatenation |

## Left out

- Key and field values: lists, sets, sorted sets, hashes and strings are modelled with their elements as bytes or
  integers; sorted-set scores are kept as the text the rewriter prints, so number formatting is not part of the model.
- RDB files: a base in RDB format is an abstract snapshot; the encodings of streams, modules and functions are
  not modelled, and neither is when the log gets a timestamp annotation.
- AofLoader.LoadSingleAppendOnlyFile: starts behind a possible RDB preamble, knows of each command only whether it is
  MULTI, EXEC, another known command or unknown, and takes the configuration of truncated files as a parameter.
- AofLog.ReadCommandExact: lengths are within what the C types hold; argument lengths that are negative or overflow, which
  the encoder never writes, are read as an unexpected end of file.
- AofProtocol.RunKeeps: is about runs in which nothing is written behind a short write that was taken back, the forced
  flush before a rewrite empties the buffer, the directory sync does not fail after the manifest rename, no rewrite is
  committed with the append-only file off while a descriptor left by a failed start is open and the last INCR file is
  not empty, and the append-only file is not switched on inside a transaction while a rewrite is running; what happens
  otherwise is proved separately, with the exact condition of each.
- AofEffect.StepState: a rewrite that was put off because something else was running starts when its event comes; that
  the server comes back to it (`aof_rewrite_scheduled`) is not modelled.
- AofRestart.LifeKeeps: a start reads either the append-only files or an RDB file, which is a parameter; the truncation of
  a last file that was cut inside a command is the subject of `AofLoader`.
- AofProtocol.AofServer.FlushAppendOnlyFile: is one disk step for the bytes it writes; the writes it is made of are the
  subject of `AofFlush`.
- AofProtocol.StepKeeps: completed writes survive a crash; fsync timing, latency and the `always` policy, which exits on a
  failed write, are not modelled, and neither is the upgrade from a log without manifest.
- AofFlush.RunConservesExactly: covers the policies other than `always`, which exits on a failed write.
- AofManifest.RoundTrip: names need no quoting (printable ASCII without quotes, slashes and backslashes); a line with quotes
  is the subject of `AofManifestText` alone, and zero bytes inside lines are not modelled.
- Sds.SplitLine: a line ends at its end, not at a zero byte.
- Loading several files in a row (`loadAppendOnlyFiles`): replaying files is modelled as concatenation.
- AofRewrite.RewriteAppendOnlyFile: writing the output does not fail; listpack, intset and hash-table encodings only
  decide the order of elements, which is a parameter.
- crcspeed16big: the big-endian 16-bit engine, which nothing in the server uses.
- Cluster.PatternHashSlot: a character class in a pattern may match any byte and end anywhere, which allows more keys than
  the real matcher does, so the theorem is stronger than needed.
- Cluster.ClusterCommandSlots: what is printed about each node is not modelled.
- AclSelector.Selector.Set: an operation ends at its end, not at a zero byte.
- AclDescribe.SelectorLoads: is about one selector; flags and passwords of a user and its further selectors in
  parentheses are not modelled.
- AclCheck.CheckCmd: is about one selector, of which a user has several; the keys and channels of a command, with what
  is done to them, are a parameter, and so is the glob matcher.
- AclSelector.RunLossless: the ALLCOMMANDS flag is not part of what is compared here; `AclDescribe.FlagKept` says what a
  replay makes of it.
- AclSelector.Selector.AddAllowedFirstArg: the first-argument table has an entry for every identifier.
- AclSelector.LosslessExactly: is about one more operation on a selector that its rules describe.
- Renamed and module commands: the table of commands is a parameter.
- BlockedServe.RunKeeps: the timeout table, the queue of unblocked clients, replies, statistics and module
  callbacks are not modelled; a reprocessed command is an arbitrary list of the modelled steps.
- BlockedServer.Server.TakeReadyKeys: that the outer loop over ready keys ends is not claimed; it depends on what the
  reprocessed commands signal.
- BlockedServer.Server.ReleaseBlockedEntry: wait lists are sequences of nodes with addresses; their links are the subject
  of `AdList`.
- BitField.BitfieldGeneric: starts from parsed operations; argument errors, size limits, notifications and unsigned
  fields of 64 bits, which the parser refuses, are not modelled.
- BitPos.BitposCommand: starts from parsed arguments of a string or a missing key; type errors are not modelled. The same
  holds for BITCOUNT and BITOP.
- BitOp.FastPath: words are loaded in little-endian order.
- Bio.DrainWaits: says what holds when a drain returns, not that it returns: wake-ups of condition variables and thread
  start and kill are not modelled.
- Bio.BioState.ProcessJob: the effects of closing, syncing and freeing are not modelled, only their order.
- AdList.List.Dup: allocation does not fail; freeing values and nodes is not modelled.
