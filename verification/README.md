# redis-glass: the persistence engine, verified

A Dafny model of the part of redis-glass that must not lose or repeat a
command: the store, the append-only file, its compaction while clients keep
writing, and the RESP codec the log is written in. Two smaller cores are
modelled beside it: the expiry and scan machinery of the store, and the
windowed summaries and live subscriptions of the event recorder.

`dafny verify dfyconfig.toml` checks the whole project.

## How it is organised

| files | what they hold |
|---|---|
| `Basics`, `Sums`, `Strconv`, `Ordering` | Go's `int`, byte strings, byte counts, `strconv`, `sort.Strings` |
| `Resp`, `RespProofs`, `RespReader`, `RespWriter` | the wire format as functions, the theorems about it, and the stateful reader and writer proved against it |
| `StoreSpec`, `StoreProofs`, `Store` | what each store operation does to the store as a value, the facts every reachable store satisfies, and the class that updates its maps in place |
| `Commands`, `Handler` | what a handler executes and logs against what a replay executes, and the handlers themselves |
| `Snapshot`, `SnapshotProofs`, `Compaction`, `AofFile` | the compacted log, the proof that replaying it rebuilds the store, exactly when it does under a ceiling, and the class behind the file |
| `Protocol`, `ProtocolProofs` | the rewrite as a step protocol with clients, failures, crashes and power loss |
| `Effects` | what the commands mean to a client, in numbers, texts and positions, stated without the functions the handlers are proved against |
| `Ceiling`, `Sampler`, `Expiry`, `Keyspace` | whole runs under a memory ceiling, runs with and without sampler ticks, what a restart does to expired strings, whole SCAN iterations |
| `Histogram`, `HotKeys`, `Subscribers` | percentiles, the rolling key count, and the subscribe/broadcast protocol |

Code that changes state is a class whose methods are proved against a function
of the old state; the theorems are about those functions. What runs
concurrently is a state machine whose steps are as fine as the locks.

## Main results

* **The live file rebuilds the live store.** After every interleaving of client
  commands with the steps of any number of rewrites (finished, failed or refused)
  and crashes in which no deadline is reached and no ceiling is set, replaying the
  file gives the store; without deadlines exactly that store.
  (`ProtocolProofs.LiveFileRebuildsStore`)
* **Expired strings come back.** Nothing logs that a string expired. When deadlines
  do pass, the uncompacted log rebuilds the live store and with it exactly the
  strings that came due and were not since set, deleted or flushed, for every run
  of commands that do not look at deadlines. (`Expiry.ExpiredComeBack`)
* **Exactly once.** While a rewrite is under way, its snapshot followed by the
  mirrored commands rebuilds the store as well, so the swap neither loses nor
  repeats a command; and from every idle state a rewrite can run to its end.
  (`SnapshotAndMirrorRebuildStore`, `BaseAndMirrorRebuildStore`, `SwapReady`,
  `RewriteCompletes`)
* **Serialise and replay is the identity** on every reachable store, for every
  map iteration order and across chunk borders. Under a ceiling it is so exactly
  when the keys of chunked lists and hashes find room where the replay checks
  them again, stated for one order and for all of them. (`RoundTripExactly`,
  `EveryOrderExactly`, `SnapshotRoundTrip`, `ExactRoundTrip`)
* **Torn tail.** Every byte prefix of a log replays exactly the commands wholly
  inside it, a power loss takes the store back to an earlier moment and never to
  one before the last sync, and commands appended behind a cut are all replayed
  exactly when the cut was on a command's boundary. (`RespProofs.TornTail`,
  `ProtocolProofs.PowerLossGoesBack`, `RespProofs.AppendAfterTear`)
* **Live execution is replay** for every mutating command, argument list and
  clock. (`Commands.LiveIsReplay`)
* **What the commands mean**: EX and PX against the answer of TTL, counters as sums in
  64 bits, the order LPUSH leaves, what HSET, HDEL, DEL and EXISTS count, each said
  in numbers and positions and not through the functions the code is proved against.
  (`Effects`)
* **The sampler is unobservable**, when there is no ceiling, to reads, SET, list,
  hash and flush commands and to DEL but for its count. What the counter commands
  leave, EXPIRE's reply, DEL's count, and under a ceiling the replies of the
  commands that write or count, show a tick exactly when stated. (`Sampler`)
* **SCAN**: exactly what a complete iteration yields, whatever is added or deleted
  between its calls; exactly what deletions make it miss; at least once while keys
  keep their place; and the pages of an unchanged keyspace. (`Keyspace`)
* **The rolling key count** is the true one exactly when no slot in the report was
  used for an older window after its newest. (`HotKeys.ReportIsExact`)

## Where the code does less than its comments say

* `Scan` promises that keys present for the whole scan are returned at least once
  (store/store.go:241-244). Its cursor is an offset, so deleting a key that sorts
  before the cursor can hide another one. `Keyspace.YieldsExactly`: a key present
  throughout is returned if and only if the page of some call covers one of its
  places. `Keyspace.DeletionsMissExactly`: when keys are only deleted, one is missed
  if and only if between two calls it falls from at or after the cursor to before
  it. `Keyspace.DeletionSkipsAKey` is such a run on a store of three keys.
* A remaining time under one millisecond is written as `PX 0`, which `Set` reads
  as no deadline: `SnapshotProofs.DeadlineRounding` is the exact condition,
  `Compaction.BriefDeadlineLost` a string that comes back without its deadline.
* The memory check of a chunked RPUSH or HSET counts the key of every chunk, so a
  compacted log can be refused under the ceiling its store lived under.
  `Compaction.RoundTripExactly` says exactly when, for one order of iteration:
  the key of a chunked list must fit once more on top of the strings and the
  lists up to it, that of a chunked hash on top of the strings, all lists and the
  hashes up to it. `Compaction.EveryOrderExactly` says it for all orders.
  `Compaction.LongListLost` and `Compaction.LongHashLost` are stores one command
  builds and no order brings back; `Compaction.HashBytesComeLater` comes back
  though the whole store leaves no room for another key.
* The counter commands keep the deadline of a string that is due but not yet
  removed, EXPIRE does not look at whether it is due, DEL counts it, and the
  ceiling counts its bytes: `Sampler.IncrSeesTick`, `Sampler.ExpireSeesTick`,
  `Sampler.DelSeesTick`, `Sampler.CeilingSeesTick` and
  `Sampler.CeilingSeesTickCounting` are the exact conditions,
  `Sampler.TicksShow` a string a client sets that shows all four.
* Lazy expiry and the sampler log nothing, so a restart brings expired strings back
  with a new deadline: `Expiry.ExpiredComeBack` says exactly which,
  `Expiry.BriefStringComesBack` is one. A counter that started again from zero goes
  on from the old number: `Expiry.CounterCountsOnAfterRestart`.
* A SCAN whose cursor and count overflow an `int` slices out of range:
  `Keyspace.ScanAnswers`, with two keys in `Keyspace.ScanOverflows`.
* The replay leaves a torn tail in the file, and the file is opened for
  appending: `RespProofs.AppendAfterTear` says when later commands survive the
  next replay, `RespProofs.TornBulkSwallows` is a FLUSHALL read as the value of a
  SET.
* The hot-key ring ages out whatever a slot held when an access of another window
  uses it, also when that window is the older one: `HotKeys.ReportIsExact` is the
  exact condition, `HotKeys.LateAccessLoses` a key whose count is lost.

## Model

| member | source | states |
|---|---|---|
| ProtocolProofs.LiveFileRebuildsStore | store/aof.go:264-394 | in every reachable state of clients, rewrites, failures, refusals and crashes, replaying the live file rebuilds the live store, exactly when there are no deadlines |
| ProtocolProofs.SnapshotAndMirrorRebuildStore | store/aof.go:311-334 | between the snapshot and its writing, the snapshot's commands in any iteration order followed by the mirrored ones rebuild the live store |
| ProtocolProofs.BaseAndMirrorRebuildStore | store/aof.go:319-339 | while the snapshot is being written, however far it has got, the same holds of the commands it becomes |
| ProtocolProofs.SwapReady | store/aof.go:290-297 | what is moved into place is the snapshot's commands and then every command logged since, each once |
| ProtocolProofs.SwapIsOneChange | store/aof.go:334-380 | the steps of the locked swap are always possible one after the other and amount to replacing the file and clearing the mirror |
| ProtocolProofs.RewriteCompletes | store/aof.go:298-394 | from every idle state a rewrite can run to its end, and leaves exactly the snapshot's commands in the file, all synced |
| ProtocolProofs.SecondRewriteRefused | store/aof.go:299-304 | a rewrite asked for while one runs changes nothing |
| ProtocolProofs.FailureLeavesFile | store/aof.go:381-394 | after any failure the rewrite can clean up and end, and leaves the store, the file and what is synced of it as they were |
| ProtocolProofs.StepKeepsInv | store/aof.go:298-394 | each step of the protocol keeps the invariant |
| ProtocolProofs.RunKeepsInv | store/aof.go:298-394 | so does every run |
| ProtocolProofs.CrashKeepsInv | store/aof.go:467-506 | a server killed at any step and restarted from the file at the live path satisfies the invariant again |
| ProtocolProofs.RestartReplays | store/aof.go:467-506 | after a restart the store is what the logged commands make of an empty one, and the file is as it was |
| ProtocolProofs.ClientKeepsInv | commands/handler.go:181-199 | one command, logged and mirrored inside the same critical section, keeps the invariant |
| ProtocolProofs.ClientStepMeans | store/aof.go:145-172 | what a client's command logs is appended once to the file, and to the mirror exactly while a rewrite collects it |
| ProtocolProofs.CommandKeepsLike | store/aof.go:508-594 | a command does the same to a rebuilt store as to the live one, at another clock, up to deadlines |
| ProtocolProofs.PowerLossReplaysPrefix | store/aof.go:153-163 | a prefix that holds the synced bytes replays exactly the commands within it, and none of the synced ones is missing |
| ProtocolProofs.PowerLossGoesBack | store/aof.go:153-163 | the store recovered after a power loss is what the live store was at an earlier moment of the run, since when nothing was synced and when the log held every synced byte |
| ProtocolProofs.PowerLossUnderFsyncAlways | store/aof.go:153-163 | with an fsync after every write, a power loss while a command is written leaves the store of before it, or of after it once its last byte is there |
| ProtocolProofs.TickSyncs | store/aof.go:181-189 | the ticker's fsync brings the whole log to the disk |
| ProtocolProofs.TornAppend | store/aof.go:145-152 | a log cut inside its last command replays all but that one |
| Compaction.SnapshotRoundTrip | store/aof.go:403-449 | replaying the compacted log of any consistent store, in any iteration order and under any ceiling with room, refuses nothing and rebuilds the strings not yet due, the lists in order and the hashes |
| Compaction.RoundTripExactly | store/aof.go:403-449 | for any consistent store within its ceiling and any iteration order, the compacted log brings back everything not yet due if and only if each chunked key fits once more on top of what is replayed up to its own value |
| Compaction.EveryOrderExactly | store/aof.go:403-449 | it comes back in every order if and only if each chunked list key fits on top of strings and lists, each chunked hash key on top of everything |
| Compaction.LongListLost | store/store.go:351-360 | 501 empty values pushed by one RPUSH under a ceiling of one byte do not come back in any order |
| Compaction.LongHashLost | store/store.go:395-415 | nor do more than 500 new fields set by one HSET under a ceiling that just holds them |
| Compaction.HashBytesComeLater | store/aof.go:419-447 | a store with no room for its chunked list's key on top of everything comes back, since hashes are replayed last |
| Compaction.BriefDeadlineLost | store/aof.go:403-417 | SET k 5 PX 1 compacted with half a millisecond left comes back without a deadline |
| Compaction.PushesShort | store/store.go:351-360 | when the chunks of a list do not all fit, the replayed list is too short |
| Compaction.HSetsShort | store/store.go:395-415 | when the chunks of new fields do not all fit, the replayed hash is too small |
| Compaction.ExactRoundTrip | store/aof.go:403-449 | without deadlines the rebuilt store is the original |
| SnapshotProofs.DeadlineRounding | store/aof.go:403-417 | a compacted deadline is no later and less than a millisecond earlier if and only if a millisecond was left, else it is lost |
| SnapshotProofs.ReplayPushes | store/aof.go:419-430 | the RPUSH chunks of a list have the effect of one RPUSH |
| SnapshotProofs.ReplayHSets | store/aof.go:432-447 | the HSET chunks of a hash have the effect of one HSET |
| SnapshotProofs.ReplayStrings | store/aof.go:404-417 | the SET commands add each string written with its deadline shifted to the replay's clock |
| SnapshotProofs.RebuiltStrings | store/aof.go:405-417 | the strings written are those without a deadline or with one ahead, with their values |
| SnapshotProofs.NoLineIsLong | store/aof.go:419-447 | no command of the compacted log carries more than 500 values or 500 pairs |
| SnapshotProofs.ShortIsOneLine | store/aof.go:419-447 | up to 500 values or pairs are one command |
| AofFile.WriteSnapshot | store/aof.go:403-449 | the writer emits the commands of the compacted log for the order it happened to iterate in |
| AofFile.WriteChunks | store/aof.go:419-430 | the chunking loop emits every value once, in order |
| AofFile.AOF.WriteLocked | store/aof.go:145-172 | one command's bytes are appended, synced under the always policy, and mirrored exactly while a rewrite is under way |
| AofFile.AOF.Rewrite | store/aof.go:298-394 | refused if and only if another runs; finished if and only if none runs and every file operation succeeds, and then the file is the compacted log of the store; aborted otherwise, with nothing changed but its own flags |
| AofFile.AOF.LockedSwap | store/aof.go:334-380 | succeeds if and only if append, flush, sync, close and rename all do, and then the file is what was written plus the mirrored bytes; else it stays as it was |
| AofFile.AOF.Replay | store/aof.go:467-506 | the loop executes the decoded commands of the file up to its end or the first tear |
| AofFile.AOF.ReplayCommand | store/aof.go:508-594 | each branch has the effect, and accepts the argument lists, that live execution has |
| AofFile.AOF.ParseSetTTL | store/aof.go:596-625 | the option loop accepts what the handler's accepts, with the same time to live |
| RespProofs.ParseInvertsEncode | resp/parser.go:24-87 | a command with arbitrary bytes, followed by anything, decodes to itself and leaves exactly the rest |
| RespProofs.WireBytes | store/aof.go:451-462 | the bytes of SET k with an empty value, character by character |
| RespProofs.WholeLine | resp/parser.go:90-99 | a line read is the text before the first CR LF |
| RespProofs.BareLineFeed | resp/parser.go:90-99 | a line feed without a carriage return before it is malformed |
| RespProofs.BadLength | resp/parser.go:40-67 | a length or integer that is no number is malformed |
| RespProofs.NegativeLength | resp/parser.go:52-67 | a negative length is the missing bulk string or an array of nothing |
| RespProofs.BadTerminator | resp/parser.go:102-115 | a bulk string not followed by CR LF is malformed |
| RespProofs.InlineCommand | resp/parser.go:77-86 | two words on a plain line are the command of these two words |
| RespProofs.EntriesOfLog | store/aof.go:476-499 | a pipeline of commands decodes one by one |
| RespProofs.TornArray | resp/parser.go:24-115 | a proper prefix of a command is reported as end of input, never as another value |
| RespProofs.TornEntries | store/aof.go:476-499 | a lone torn command replays nothing |
| RespProofs.TornTail | store/aof.go:476-499 | every prefix of a log decodes to exactly the commands wholly within it |
| RespProofs.WholeCoversPrefix | store/aof.go:476-499 | which commands those are: the ones whose last byte is at or before the cut |
| RespProofs.AppendAfterTear | store/aof.go:91-99 | whatever is appended behind a cut is all replayed after the commands that survived if and only if the cut was on a command's boundary |
| RespProofs.TornCommandLoses | store/aof.go:476-499 | a torn command and the log behind it never decode to a log whose first command has another length |
| RespProofs.TornBulkSwallows | resp/parser.go:47-60 | a SET cut before its value takes bytes of the FLUSHALL behind it as its value, and nothing is flushed |
| RespReader.Reader.Parse | resp/parser.go:24-87 | the stateful reader returns the value at the front of its input and leaves the rest, or fails the same way |
| RespReader.Reader.ReadLine | resp/parser.go:90-99 | reads up to the line feed and drops the line ending |
| RespReader.Reader.ReadFull | resp/parser.go:102-115 | fills the buffer in place from reads of any size, or reports the end of input |
| RespReader.Reader.ParseElements | resp/parser.go:68-76 | the loop fills an array with exactly its number of values, recursing into nested arrays |
| RespWriter.Writer.WriteArray | resp/writer.go:40-50 | emits the same bytes as the log writers |
| RespWriter.Writer.WriteRESPCommand | store/aof.go:451-462 | emits the same bytes as the log writers |
| RespWriter.ParseInvertsInteger | resp/writer.go:21-25 | an integer reply reads back as that integer |
| RespWriter.ParseInvertsNullBulk | resp/writer.go:34-38 | a missing value reads back as missing, an empty one as empty |
| RespWriter.ParseInvertsSimple | resp/writer.go:9-19 | a simple string or an error reads back as written if and only if its text holds no line feed |
| Strconv.AtoiItoa | store/store.go:311-333 | every integer survives being stored as text and read back |
| Strconv.AtoiOutOfRange | store/store.go:316-320 | the digits of what does not fit an int are no number |
| Commands.LiveIsReplay | commands/handler.go:231-632 | replaying what a handler logged makes the handler's transition; what it does not log changed nothing; replay refuses exactly what the handler refuses |
| Commands.SetTTLMeaning | commands/handler.go:231-257 | an option list is accepted if and only if it is EX or PX options each with an integer, and then the last one decides; what each asks for is `Effects.OptionsAskFor` |
| Commands.LoggedArguments | commands/handler.go:488-494 | the arguments are logged as given, those of FLUSHALL are dropped |
| Effects.NamesMean | store/aof.go:508-594 | the names the log and the replay use, in capitals |
| Commands.OpOfName | store/aof.go:508-594 | every logged name is recognised by the replay as the command that logged it |
| Handlers.Handler.Execute | commands/handler.go:181-199 | one command leaves the store, the file and the reply that the command's specification gives, together |
| Handlers.Handler.SetCommand | commands/handler.go:231-274 | the option loop, the store and the log agree with the specification of SET, error replies included |
| Handlers.Handler.DelCommand | commands/handler.go:287-297 | likewise for DEL |
| Handlers.Handler.ExpireCommand | commands/handler.go:306-326 | likewise for EXPIRE, which logs only when the key was there |
| Handlers.Handler.IncrCommand | commands/handler.go:497-530 | likewise for INCR, DECR and INCRBY |
| Handlers.Handler.DecrByCommand | commands/handler.go:532-554 | likewise for DECRBY, whose delta is negated with wrap-around |
| Handlers.Handler.PushCommand | commands/handler.go:556-574 | likewise for LPUSH and RPUSH |
| Handlers.Handler.HSetCommand | commands/handler.go:591-609 | likewise for HSET |
| Handlers.Handler.HDelCommand | commands/handler.go:622-632 | likewise for HDEL |
| Handlers.Handler.FlushAllCommand | commands/handler.go:488-494 | likewise for FLUSHALL |
| StoreProofs.CommandKeepsConsistent | store/store.go:67-448 | every command keeps the expiry index exactly the strings with a deadline, and no list or hash empty |
| StoreProofs.CommandKeepsCeiling | store/store.go:498-506 | no command takes the store over a positive ceiling, repeated fields and overwrites included, and a refused one changes nothing |
| Stores.Store.Set | store/store.go:67-86 | stores or refuses, with the deadline and index the time to live asks for |
| Stores.Store.Get | store/store.go:89-103 | a due string is not there, and is removed from map and index |
| Stores.Store.Del | store/store.go:117-141 | removes the keys from all three maps and the index, and counts each key once |
| Stores.Store.Exists | store/store.go:144-160 | counts every argument that is there, due strings not, and drops the due ones |
| Stores.Store.Expire | store/store.go:163-174 | gives a string a deadline without looking at whether it is due |
| Stores.Store.TTL | store/store.go:177-198 | the remaining seconds to the nearest, -1 and -2 |
| Stores.Store.IncrBy | store/store.go:311-333 | adds with wrap-around, keeps the deadline the entry had, refuses what is no integer or does not fit |
| Stores.Store.LPush | store/store.go:336-348 | prepends the values one by one, so reversed |
| Stores.Store.RPush | store/store.go:351-360 | appends the values in order |
| Stores.Store.HSet | store/store.go:395-415 | sets the pairs from left to right and counts the new fields |
| Stores.Store.HDel | store/store.go:430-448 | removes the fields, and the hash when none is left |
| Stores.Store.FlushAll | store/store.go:301-308 | leaves the empty store |
| Effects.RefusalsMean | commands/handler.go:231-632 | the wrong-arity reply is given if and only if the number of arguments is wrong, and whatever is refused changes and logs nothing |
| Effects.OptionUnits | commands/handler.go:241-253 | EX counts in nanoseconds of a second and PX of a millisecond, in any case of letters, and nothing else is an option |
| Effects.OptionsAskFor | commands/handler.go:231-257 | EX n asks for n * 10^9 and PX n for n * 10^6 nanoseconds, in 64 bits; another option is a syntax error |
| Effects.ExIsPx | store/aof.go:596-625 | EX n asks for what PX 1000 * n asks for, in any case of letters, for every n whose seconds fit an int |
| Effects.SetMeans | store/store.go:67-103 | after an accepted SET, GET answers the value up to and with the deadline and nothing after it, and no other key is touched |
| Effects.SetExThenTTL | store/store.go:177-198 | at the clock of an accepted SET k v EX n with n above zero, TTL k answers n |
| Effects.TTLMeans | store/store.go:177-198 | TTL is -2 exactly without a string, -1 exactly without a deadline, else the nearest number of seconds left |
| Effects.ExpireMeans | store/store.go:163-174 | EXPIRE k n of a string answers 1, after which TTL k is n and the value stays for n seconds; else it answers 0 |
| Effects.CountingMeans | store/store.go:311-333 | on a number m, INCR, DECR, INCRBY n and DECRBY n store and answer m + 1, m - 1, m + n and m - n in 64 bits; on no number or no room they change nothing |
| Effects.NegateMeans | commands/handler.go:532-554 | adding the negated number is subtracting it, for the smallest int too |
| Effects.IncrThenDecr | commands/handler.go:515-554 | INCRBY k n and then DECRBY k n leave the number as it was |
| Effects.WrapIs | store/store.go:311-333 | the sum stored is the one 64-bit number that differs from the true sum by a multiple of 2^64 |
| Effects.Numerals | store/store.go:325-330 | numbers are written in decimal, the most significant digit first |
| Effects.NumeralsRead | store/store.go:316-320 | a sign and leading zeros are read, a lone sign is not |
| Effects.NoNumeral | store/store.go:316-320 | any character but a digit or a leading sign makes a text no number |
| Effects.LPushMeans | store/store.go:336-348 | after LPUSH of n values, element i below n is value n - 1 - i and the old list follows; the reply is the new length |
| Effects.RPushMeans | store/store.go:351-360 | after RPUSH the old list comes first and then the values in order; the reply is the new length |
| Effects.HSetMeans | store/store.go:395-415 | each field named has the value of the last pair that names it, the others theirs; the reply counts the fields that were not there |
| Effects.HDelMeans | store/store.go:430-448 | the fields named are gone and the others stay, no hash is left empty; the reply counts the fields that were there, each once |
| Effects.DelMeans | store/store.go:117-141 | the keys named are gone from all three maps and the others stay; the reply counts those that were there, each once |
| Effects.FlushMeans | store/store.go:301-308 | nothing is left but the ceiling |
| Effects.ExistsMeans | store/store.go:144-160 | EXISTS answers the number of arguments that are a string not due, a list or a hash, repeated ones each time |
| Effects.MemoryMeans | store/store.go:468-492 | a new string, list or hash adds the bytes of its key and all it holds, and an empty store has none |
| Effects.FitsMeans | store/store.go:498-506 | bytes are refused if and only if the ceiling is positive and they go over it |
| Stores.Store.ApproxMemoryBytes | store/store.go:468-492 | the loops add up to the summed lengths of all keys, fields and values |
| Stores.Store.CheckMemory | store/store.go:498-506 | passes if and only if there is no ceiling or the bytes fit under it |
| Stores.Store.Snapshot | store/store.go:520-543 | the snapshot is the store's contents |
| Stores.Store.Keys | store/store.go:208-233 | lists each matching key as often as it occurs in the three maps, due strings not |
| Stores.Store.Scan | store/store.go:245-288 | the page between cursor and end of the sorted keys, filtered, and the next cursor |
| Stores.Store.SampleRound | store/store.go:574-603 | one round inspects min(20, n) tracked keys in any order and removes exactly those of them that are due |
| Stores.Store.SampleExpire | store/store.go:573-610 | a tick goes from round to round while at least a quarter of those inspected were due, at most 10 rounds and 200 keys; it removes what its rounds found due, min(200, n) when all n tracked ones are |
| Stores.NothingDrifts | store/store.go:598-601 | on a reachable store the repair branch is dead and the tick is the removal of due strings |
| Ceiling.RunStaysUnderCeiling | store/store.go:474-506 | no run of commands, reads and ticks exceeds the ceiling |
| Ceiling.EmptyStoreRuns | store/store.go:474-506 | in particular none from the empty store |
| Ceiling.UncompactedLogReplays | store/aof.go:467-506 | without deadlines the uncompacted log of any run under a ceiling is replayed under it without a refusal and rebuilds the store |
| Sampler.TicksAreUnobservable | store/store.go:573-610 | without a ceiling, a run of reads, SET, DEL, list, hash and flush commands gets the same replies, the count DEL answers left open, with any ticks inserted |
| Sampler.IncrSeesTick | store/store.go:311-333 | a counter command's reply does not show a tick; the store it leaves does if and only if the tick removed that string (no ceiling) |
| Sampler.ExpireSeesTick | store/store.go:163-174 | a tick changes EXPIRE's answer if and only if it removed that string |
| Sampler.DelSeesTick | store/store.go:117-141 | a tick changes DEL's answer if and only if it removed a named string that was no list or hash |
| Sampler.CeilingSeesTick | store/store.go:498-506 | under a ceiling SET, LPUSH, RPUSH and HSET are answered differently after a tick if and only if the freed bytes are the ones that were missing |
| Sampler.CeilingSeesTickCounting | store/store.go:311-333 | the same for INCR, DECR, INCRBY and DECRBY, which check the bytes of the number they would store |
| Sampler.TicksShow | store/store.go:573-610 | SET k 5 PX 1 and a tick or none: what INCR then GET, EXPIRE, DEL and, under two bytes, SET answer |
| Expiry.ExpiredComeBack | store/aof.go:467-506 | after any run of reads, ticks and commands that do not look at deadlines, with any clocks, the uncompacted log rebuilds the live store plus exactly the strings dropped as due and not since set, deleted or flushed, with their old values and a new deadline |
| Expiry.RunStaysBehind | store/store.go:109-114 | the step-by-step form: at every moment of such a run the replay stands for the live store with the dropped strings put back |
| Expiry.MutateWith | store/store.go:67-141 | a command that does not look at deadlines does the same with the dropped strings as without, but for those it sets, deletes or flushes |
| Expiry.BriefStringComesBack | store/store.go:89-103 | SET k 5 PX 1, gone after a millisecond, is there again after a restart |
| Expiry.CounterCountsOnAfterRestart | store/store.go:311-333 | INCR of the expired 5 answers 1, its replay leaves 6 |
| Keyspace.StaticIteration | store/store.go:245-288 | on an unchanged keyspace the pages partition the sorted keys for any counts, and the iteration ends |
| Keyspace.CompleteScanIsKeys | store/store.go:208-288 | a complete SCAN of an unchanged store yields what KEYS lists, each key as often |
| Effects.GlobMeans | store/store.go:290-298 | a pattern that ends in an asterisk matches what begins with the rest of it, any other itself |
| Effects.ListingsMean | store/store.go:208-269 | how often KEYS and SCAN see a name: as a string not due, as a list, as a hash |
| Effects.PageLength | store/store.go:266-287 | a page without a pattern is the next count keys, 10 for a count not positive, or the rest, and the cursor moves by as many or to 0 |
| Keyspace.IterationEnds | store/store.go:270-288 | following the cursors with any counts can be completed while the end of a page fits an int |
| Keyspace.ScanSeesKeys | store/store.go:208-269 | SCAN and KEYS see the same keys if and only if the clock is on no deadline |
| Keyspace.ScanAnswers | store/store.go:245-288 | when a SCAN answers at all: unless the end of its page overflows |
| Keyspace.ScanOverflows | store/store.go:266-275 | with two keys, SCAN 1 COUNT of the largest int slices out of range |
| Keyspace.YieldsExactly | store/store.go:241-288 | whatever changes between the calls, a key present throughout is yielded if and only if some call's page, by its cursor and count, covers one of its places |
| Keyspace.DeletionsMissExactly | store/store.go:241-288 | when keys are only deleted, a key present throughout is missed if and only if between two calls it falls from at or after the cursor to before it |
| Keyspace.PageYields | store/store.go:266-287 | one page yields a key exactly when it covers a place of it, and a cursor that is not 0 is the page's end |
| Keyspace.PlaceKeptIteration | store/store.go:241-288 | whatever else changes, a key with no fewer keys before it at each call is yielded |
| Keyspace.AtLeastOnce | store/store.go:241-288 | an insert-only iteration from cursor 0 yields every key present at the start |
| Keyspace.CursorMisses | store/store.go:266-287 | from a cursor on, over an unchanged keyspace, a key is yielded if and only if the cursor is not past its last place |
| Keyspace.DeletionSkipsAKey | store/store.go:241-244 | SET a, b, c, SCAN 0 COUNT 1, DEL a, SCAN 1 COUNT 1 ends without b |
| Ordering.SortedUnique | store/store.go:264-264 | there is one way to sort a bag of keys, so pages do not depend on map order |
| Ordering.LeqMeans | store/store.go:264-264 | the order of the pages: a key before what extends it, otherwise the first differing byte decides |
| Histograms.Histogram.Record | events/events.go:82-94 | the sample is counted in the bucket that bounds it |
| Histograms.Histogram.Percentile | events/events.go:96-112 | for p above zero the answer is the bound of the first bucket up to which at least p * calls samples lie, the one that holds the sample of rank ceil(p * calls); the last return is never reached |
| Histograms.RankBucket | events/events.go:96-112 | the bucket of a rank is the first whose running count reaches it |
| Histograms.AllCounted | events/events.go:76-94 | the buckets sum to the number of calls |
| Histograms.PercentilesAscend | events/events.go:96-112 | a higher percentile never answers less |
| Histograms.BoundBrackets | events/events.go:43-112 | the answer is above the exact order statistic and the bucket's lower bound is not, or it is the overflow bucket |
| Histograms.BucketsMean | events/events.go:43-45 | the seven buckets and their answers, in microseconds |
| HotKeys.Tracker.Touch | events/events.go:139-152 | whatever the window, the slot then counts its accesses since it was last reset |
| HotKeys.Tracker.Top | events/events.go:154-177 | each key the slots report, once, with the summed count, largest first; when cut, n of the largest |
| HotKeys.ReportIsExact | events/events.go:118-165 | at a window not before the latest access, every key gets its accesses of the last 12 windows of the whole log if and only if no slot in the report was used for an older window after its newest; never more |
| HotKeys.TimelyReportIsExact | events/events.go:118-165 | so when accesses come out of order by fewer than 12 windows |
| HotKeys.SettledStep | events/events.go:144-149 | one access settles its slot if newer than all in it, keeps it if as new as the newest, unsettles it if older |
| HotKeys.LateAccessLoses | events/events.go:144-149 | an access 12 windows late, after which the newer window's count is gone |
| HotKeys.LateAccessKept | events/events.go:144-149 | an access 19 windows late that loses nothing |
| HotKeys.TouchSlot | events/events.go:139-152 | what one access does to one slot, reused or not |
| HotKeys.SlotsCoverWindows | events/events.go:118-130 | the 12 slots stand for the last 12 windows, each once |
| HotKeys.RollingMeans | events/events.go:115-118 | the rolling count is the number of accesses in the last 12 windows |
| HotKeys.SlotReports | events/events.go:159-165 | what the age test lets through is never more than the slot's share of those windows, and exactly that when the slot is settled or its newest window is out of the report |
| Subscribers.RunKeepsInv | events/events.go:304-346 | every interleaving of joining, leaving, sending and reading keeps the invariant |
| Subscribers.EveryRunIsSafe | events/events.go:304-346 | no send on a closed channel, no second close, no negative count; every broadcast while a subscriber is in the table is kept or dropped; each stream is the kept ones in order, and each one missed found the 32 events before it unread |
| Subscribers.ZeroCountMeansNobodyWaits | events/events.go:293-302 | skipping the broadcast at count zero leaves out only callers still inside Subscribe |
| Subscribers.BroadcastReaches | events/events.go:333-346 | a broadcast puts the event at the end of a registered channel that holds fewer than 32 and leaves a full one alone, and does not end before it has come to each |
| Subscribers.ReaderTakesFirst | events/events.go:306-307 | a reader takes the oldest event of its channel |
| Subscribers.SubscribeCompletes | events/events.go:306-313 | subscribing registers one new channel, open and empty, and counts it |
| Subscribers.UnsubscribeCompletes | events/events.go:317-330 | leaving runs to its end: out of the table, counted off, closed, and a second call changes nothing |
| Subscribers.Recorder.Subscribe | events/events.go:306-317 | registers a fresh empty channel under a new identifier |
| Subscribers.Recorder.Unsubscribe | events/events.go:319-331 | the first call deregisters and closes, later ones change nothing |
| Subscribers.Recorder.Broadcast | events/events.go:333-346 | every registered channel with room gets the event at its end, a full one is unchanged, none blocks |

## Left out

- ProtocolProofs.LiveFileRebuildsStore: runs without a memory ceiling and with
  no deadline passing, as said in the next line. What a ceiling does to a log is
  in `Ceiling` and `Compaction`.
- Deadlines passing during a protocol run or a replay. Log entries carry
  relative times that restart on replay, so with deadlines the protocol compares
  values and which strings have a deadline; the guard on a run is that no string
  is due when a command executes and none has under a millisecond left when a
  snapshot is written. The clock stands still during one replay, one tick and
  one command, which in the code may read the time more than once.
- Expiry.ExpiredComeBack: the log as written, without a rewrite (a snapshot leaves
  dropped strings out), without a ceiling, and without the counter commands and
  EXPIRE, for which `CounterCountsOnAfterRestart` shows more can change.
- The gap in GET and TTL between dropping the read lock and removing a due
  string; each is one step here.
- AofFile.AOF.Rewrite: lets no client command in between its phases; the
  interleavings are in `Protocol`.
- AofFile.AOF.LockedSwap: closing the live file before the rename and opening the
  new one after it are taken to succeed.
- Sampler.TicksAreUnobservable: whole runs without a ceiling and with DEL's count
  left open; `CeilingSeesTick` and `DelSeesTick` are about one command.
- Failures after the live file was closed other than a failed rename, failed log
  writes after a mutation, panics inside a rewrite, and directory fsync. Rename
  is atomic and durable.
- A nil AOF (persistence off), and the tickers that call `sampleExpire`,
  `Rewrite` and `Sync`; what they call is modelled.
- Stores.Store.Snapshot: copies maps of values in loops. Slices and inner maps are
  values here, so that the copy shares nothing with the store is not shown.
- Overflow of the memory sum, allocation failure for huge declared lengths, and
  stack depth on nested arrays. A line or length beyond an `int` is a parse error.
- Unicode upper-casing and white space: command names, options and inline
  commands are compared and split as ASCII.
- Rounding of floating point: percentiles use reals, the sampler's ratio test is
  `4 * expired < sampled`.
- HotKeys.ReportIsExact: says nothing of a report whose window is before the
  latest access, which takes a clock read before that access and used after it.
- The slow log, redaction, statistics by command name, AUTH, PING, ECHO, INFO,
  COMMAND, LRANGE, HGET, and the reply layouts of SLOWLOG and HOTKEYS.
- server/server.go, main.go and monitor/: sockets, TLS, environment, dashboard.
