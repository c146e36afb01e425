# Geomys in Dafny

A model of the Geomys key-value store and proofs of what keeps its several copies of the same
data in agreement: the write-through log and the live database, the leader and its followers,
the pointer list and the sequence it stands for, the views that nodes vote from.

`dafny verify dfyconfig.toml` checks everything.

## Files

- `Bytes`, `Collections`, `Decimal`, `Requests`: byte strings, two helpers, 64-bit decimal text,
  requests and their conversions.
- `Persistence` (the log file and its loader), `CodecLaws` (torn logs, appends, unique decoding),
  `CutLogs` (appending to a log that a crash has cut).
- `LinkedList`, `Deque`: the heap structures; `DequeRuns` runs both side by side, `Queues` states
  the queue and stack behaviour.
- `Store` (each database operation as a function), `Database` (the class that updates maps and
  lists in place), `Commands` (what a command does live and on replay), `CommandHandler`.
- `Replay` (one request), `Keys` (locality), `Traces` (runs and what they leave in the log), `Runs`
  (restarts and crashes), `Concurrency` (handlers interleaving between their two critical sections),
  `Overlap` (which may overlap).
- `Replication` (routing, replication, sync), `Convergence`, `Routing` (which requests keep the
  databases equal), `Deliveries` (writes that reach nodes in different orders), `SelfListed`, `Sync`,
  `Joins` (joining during a run).
- `Election` (votes, heartbeats, rounds), `ElectionLaws`, `Stalling` (when nobody can be elected),
  `Failover` (some nodes with, some without a live leader), `Membership` (timed member list).
- `Expiry` (deadlines), `Texts` (what a string key holds), `Counters`, `Tokenizer`.
- `Service` (the answers to requests, by their words, over runs), `Restarts` (the same for logged words).

A class method is proved equal to a function of the old state; the lemmas about runs are about
those functions. A Go panic is the outcome `Panic` (or `None` for a replay), because the process
ends: an absent key panics in `LogRequest`, a record without its value panics in the replay loop.

## Main results

- **What clients see.** The words of the requests, in letters of either case, mean what they say:
  LPOP and RPOP answer what PUSH put in, from the left and from the right (`QueueOverRequests`); GET
  answers the latest successful SET with all INCRs since (`ReadYourWrites`), and nothing before it,
  after a FLUSHDB, or after the first cleanup past the time plus the TTL (`NeverWritten`,
  `ExpiredIsNotFound`). Upper-case records replay to the same, others to nothing (`ReplayedQueue`,
  `ReplayedCounter`, `OtherSpellingsAreLost`).
- **Torn log.** Cut a log at any byte and the loader returns exactly the records whose encoding,
  except possibly its last byte, is there (`TornLog`), although length reads go through a reused
  buffer and short reads succeed. The server does not repair the file. Every next command that it
  logs loads as itself, on top of what was recovered, if and only if the cut fell on a record
  boundary (`AppendAfterCutIff`). After a cut inside a record, later records can be lost
  (`AppendAfterCutLoses`), and a record that neither command logged can load (`ForgedSet`).
- **Replay.** For one request, replay equals live execution on every database exactly when the
  request passes a check on its own fields (`ReplayIffFaithful`): the word is upper case, SET and
  PUSH carry a non-empty value, INCR a non-empty offset, there is no TTL, and the harmless
  exceptions. Over whole runs of such requests, with restarts and with crashes at any byte, the log
  replays to the live database at every state but those after a command that was logged behind a cut
  inside a record, until the next FLUSHDB or deeper cut (`RunMirrorsLog`); restarts are invisible
  (`RestartsAreInvisible`), and after a crash at any byte the recovered database is that of a prefix
  of the run (`CrashRecovery`). A SET with an empty value is only answered with an error while the
  server runs, but makes its next restart panic (`RestartPanicsIff`).
- **Concurrency.** A handler logs in one critical section and applies in a later one. Two requests
  may be in flight together if and only if they commute, which their fields decide (`OverlapIff`,
  `CommuteIff`): different keys do; on one key, two SETs of different values, two PUSHes of
  different values, a PUSH and a pop, and a SET of an integer text and an INCR do not, unless the
  INCR rewrites that very text; FLUSHDB commutes with writes that create nothing. In every run that
  keeps to this, a restart at any instant gives the live database with the handlers in flight
  carried to their end (`AnyInstantRecovery`), so exactly the live one when nobody is in flight
  (`CommutingQuiescentReplay`).
- **Replication.** Let the leader be absent from its own node map, and some followers listed, all reachable.
  From equal databases whose lists hold no empty string, a request leaves all databases equal
  without a panic if and only if its fields, the node it arrives at and the nodes' clocks pass a
  check (`HarmlessIff`); over runs of requests that pass, all databases stay equal
  (`SafeRunsAgree`). Not all writes pass: a lower-case word that arrives at a follower is executed
  there alone (`LowerCaseStaysLocal`), and a forwarded write with an empty key panics the leader
  (`ForwardedEmptyKeyPanics`). For writes with an exact upper-case word, a non-empty key, no TTL and
  no push of the empty string, the logs are known too: the followers' hold exactly the successful
  writes, the leader's every attempt (`FollowersConverge`). If the leader is in its own node map, as
  can happen after a failover, the databases stay equal only after writes that are safe twice
  (`SelfListedConverges`). A follower that joins ends with the leader's database, and its file with
  the leader's records after what it held before (`FollowerSyncs`), also in the middle of a run
  (`JoinsAgree`); but it cannot restart as the leader's equal unless what it held replays to nothing
  (`RestartAfterJoinIff`).
- **Delivery order.** The leader replicates without a lock, so writes can reach the followers in
  different orders. If only commuting writes are undelivered together, every follower becomes the
  leader by the writes that wait for it, at every instant (`EveryFollowerCatchesUp`), and all
  databases and the log agree whenever nothing is pending (`IdleIsLevel`). Two writes may swap on
  their way if and only if they commute, or are a pop from the left and then a push (`SwapIff`).
- **Election.** The code elects the smallest id. `README.md` and two places of `docs/Design.md`
  say the highest, another place of `docs/Design.md` the smallest; the model follows the code.
  `CommonViewElection`, `SteadyResponderAgreement` and `RecognisedLeaderWins` are the agreement
  results, and a commit is recorded and lasts (`CommitIsRecorded`, `CommitLasts`). Election need not terminate. With no recorded leader, for any number of nodes and
  whatever dead nodes they list, no round makes progress if and only if every elector hears no vote,
  two different votes, or one vote for a node it does not list (`StalledIff`); from every other
  state some run elects or stalls within one round more than there are dead entries
  (`ElectsOrStalls`); an elector that retries alone succeeds only if its first round does
  (`RetryingAloneIsFutile`). In the middle of a failover, and in any state at all, the condition is
  the same once no vote changes a view, and until then the state is not stalled (`AnyStalledIff`);
  `ElectsIff` says which rounds elect.
- **Clients.** `docs/Design.md` promises multi-word strings in double quotes. The Python client
  keeps that promise; the Go client drops the spaces (`TokenizerInvertsQuoting`,
  `TokenizerInvertsTyping`, `ClientsAgreeIff`).

## Model

| member | source | states |
|---|---|---|
| `Bytes.Uint32PutUint32` | internal/persistence/wtd.go:82-138 | a length below 2^32 survives the int32 write and the uint32 read |
| `Bytes.LowestByteFirst` | internal/persistence/wtd.go:82-113 | a length is written with its lowest byte first |
| `Bytes.SpellsIff` | internal/core/commands.go:33-36 | upper-casing gives a command word exactly for its spellings in letters of either case |
| `CodecLaws.RecordBytes` | internal/persistence/wtd.go:78-113 | the bytes of a SET record, spelled out |
| `Requests.TtlArrives` | internal/utils/conversions.go:11-53 | a TTL in the int32 range arrives at another node as it is, any other changed by a multiple of 2^32 |
| `Persistence.Persistence.Read` | internal/persistence/wtd.go:135-137 | a file read as the loader relies on it: an empty read succeeds, a read at the end fails, a short read keeps the rest of the buffer, and at most 1 GiB comes at once |
| `Persistence.Persistence.LogRequest` | internal/persistence/wtd.go:74-118 | appends exactly the record's encoding to the file |
| `Persistence.Persistence.LoadRecord` | internal/persistence/wtd.go:133-208 | one pass of the load loop, with the reused length buffer and fresh payload slices, is the parser function on the unread bytes |
| `Persistence.Persistence.LoadRequests` | internal/persistence/wtd.go:121-218 | returns the loadable records of the whole file, from its start, whatever the cursor was |
| `Persistence.Persistence.Clear` | internal/persistence/wtd.go:221-246 | leaves an empty file |
| `CodecLaws.ReadCutField` | internal/persistence/wtd.go:135-145 | a field cut at any byte is refused or leaves nothing to read, for any stale buffer contents |
| `CodecLaws.ReadCutRecord` | internal/persistence/wtd.go:133-208 | a record cut after m bytes loads if and only if at most its last byte is missing, and then it is the right record |
| `CodecLaws.LoadCutFrom` | internal/persistence/wtd.go:121-218 | any records, any cut: what loads is exactly the surviving prefix, normalised |
| `CodecLaws.SurvivorsIsLargest` | internal/persistence/wtd.go:112-113 | the surviving prefix is the longest whose encoding has at most one byte more than the cut |
| `CodecLaws.TornLog` | internal/persistence/wtd.go:121-218 | torn-log recovery stated for the largest k with an encoding of at most c + 1 bytes |
| `CodecLaws.LoadIntact` | internal/persistence/wtd.go:121-218 | an uncut log loads to all its records |
| `CodecLaws.AppendLaw` | internal/persistence/wtd.go:74-218 | logging one more request appends exactly that record to what loads, even when its fields contain marker bytes |
| `CodecLaws.UniqueFirstRecord` | internal/persistence/wtd.go:78-113 | the first record of a log and the bytes after it are determined by the log |
| `CodecLaws.PrefixFreeAndInjective` | internal/persistence/wtd.go:78-113 | one encoding is a prefix of another, or equal to it, exactly when the records agree up to empty and absent optional fields |
| `CodecLaws.LogDeterminesRecords` | internal/persistence/wtd.go:74-218 | equal logs hold equal normalised records |
| `CodecLaws.ReadLongField` | internal/persistence/wtd.go:141-145 | a field of more than 1 GiB would come back with zeros at its end, and its own end be taken for the next field; requests of at most 1024 bytes keep clear of it |
| `CodecLaws.AppendAfterCutLoses` | internal/persistence/wtd.go:194-196 | a record missing its last byte loads, but it and everything logged after it are lost once the server appends again |
| `CutLogs.AppendAfterCutIff` | internal/persistence/wtd.go:115-218 | after a cut at any byte every next command that the server logs, with a key, loads as itself on top of what was recovered, if and only if the cut fell on a record boundary |
| `CutLogs.MidRecordCutLoses` | internal/persistence/wtd.go:115-218 | after a cut inside a record, at any byte of it, some next SET or PUSH does not load as itself |
| `CutLogs.ForgedRecord` | internal/persistence/wtd.go:133-208 | a cut after a value's length can make the next record's header that value: one record loads, never the second one, and the first only if its value already was that header |
| `CutLogs.ForgedSet` | internal/persistence/wtd.go:133-208 | an instance with two SETs: the reload sets the first key to bytes of the second record's header, which neither SET did |
| `LinkedList.List.LPush` | internal/core/list.go:27-38 | the contents gain the value on the left; the node chain stays valid |
| `LinkedList.List.RPush` | internal/core/list.go:41-52 | the contents gain the value on the right; the node chain stays valid |
| `LinkedList.List.LPop` | internal/core/list.go:55-69 | returns and removes the leftmost element, or reports an empty list and changes nothing |
| `LinkedList.List.RPop` | internal/core/list.go:72-86 | returns and removes the rightmost element, or reports an empty list and changes nothing |
| `LinkedList.List.Len` | internal/core/list.go:89-91 | the length field counts the elements |
| `LinkedList.List.Clear` | internal/core/list.go:99-103 | leaves an empty valid list |
| `LinkedList.List.Walks` | internal/core/list.go:27-103 | following next from the head and prev from the tail visits `length` distinct nodes, reads the contents forwards and backwards, and meets in the same nodes |
| `Deque.Deque.PushFront` | internal/datastructures/deque.go:34-42 | refuses exactly when full, else the contents gain the value in front |
| `Deque.Deque.PushBack` | internal/datastructures/deque.go:45-53 | refuses exactly when full, else the contents gain the value at the back |
| `Deque.Deque.PopFront` | internal/datastructures/deque.go:56-65 | returns and removes the front element, or reports an empty deque |
| `Deque.Deque.PopBack` | internal/datastructures/deque.go:68-77 | returns and removes the back element, or reports an empty deque |
| `Deque.Deque.Front` | internal/datastructures/deque.go:80-86 | the front element, if any |
| `Deque.Deque.Back` | internal/datastructures/deque.go:89-95 | the back element, if any |
| `Deque.Deque.TailIndex` | internal/datastructures/deque.go:21-77 | in every valid state tail = (head + size - 1 + capacity) mod capacity |
| `DequeRuns.SameAnswersIff` | internal/datastructures/deque.go:33-77 | over any run of operations the deque answers like an unbounded sequence if and only if the sequence never outgrows the capacity |
| `DequeRuns.RunBoth` | internal/datastructures/deque.go:1-4 | the ring deque and the linked list, run side by side on the heap, answer alike if and only if the run stays within the capacity |
| `Database.Database.Set` | internal/core/database.go:30-47 | the new state and result of SET, empty keys and values refused, the deadline set only by a positive TTL |
| `Database.Database.Get` | internal/core/database.go:50-63 | the stored text or the error |
| `Database.Database.Incr` | internal/core/database.go:66-88 | 64-bit wrap-around addition to an integer text, or the error and no change |
| `Database.Database.Push` | internal/core/database.go:111-126 | a new or existing list grows on the right; other lists keep their nodes |
| `Database.Database.LPush` | internal/core/database.go:91-107 | a new or existing list grows on the left |
| `Database.Database.Lpop` | internal/core/database.go:129-149 | the leftmost element leaves the list, the emptied list stays, errors change nothing |
| `Database.Database.Rpop` | internal/core/database.go:152-172 | the rightmost element leaves the list, the emptied list stays, errors change nothing |
| `Database.Database.Sweep` | internal/core/database.go:195-205 | whatever the map order, one pass removes exactly the keys whose deadline has passed |
| `Database.Database.Clear` | internal/core/database.go:252-261 | the empty database |
| `Database.Database.RebuildFromPersistence` | internal/core/database.go:211-248 | replays the loadable records in order, stopping in a panic at the first record whose value or offset is missing |
| `Queues.QueueAndStack` | internal/core/database.go:111-172 | items pushed under a new key come back in order by LPOP and in reverse by RPOP, then errors |
| `Queues.PushedLeftLeavesFirst` | internal/core/database.go:91-149 | an item pushed on the left is the next to leave there, and nothing else changes |
| `CommandHandler.CommandHandler.HandleCommand` | internal/core/commands.go:22-209 | the new database, log and outcome of every command: writes log first and apply second, FLUSHDB empties both |
| `CommandHandler.CommandHandler.Execute` | internal/core/commands.go:52-191 | the part of a write after its log record: validation, errors and effect on the database |
| `Service.QueueOverRequests` | internal/core/commands.go:137-191 | items that PUSH requests put under a new key are the answers of LPOP requests in order and of RPOP requests in reverse, then the list is empty; the words in letters of either case |
| `Service.ListLaw` | internal/core/commands.go:137-191 | after any run of requests and cleanups the list under a key is what PUSH, LPOP and RPOP naming it have made of it since the latest FLUSHDB; nothing else touches it |
| `Service.PopAnswers` | internal/core/commands.go:150-191 | a pop after any run answers the end of that list |
| `Service.ReadYourWrites` | internal/core/commands.go:84-101 | after any run of requests and cleanups, GET answers the value of the latest successful SET, or the decimal text of its sum with the offsets INCRed since, unless a FLUSHDB or a cleanup after its deadline came between |
| `Service.NeverWritten` | internal/core/database.go:50-63 | a key never SET successfully since the start or the latest FLUSHDB is not found |
| `Service.ExpiredIsNotFound` | internal/core/database.go:195-205 | a key is not found from the first cleanup after the time plus the TTL of its SET on, until it is SET again |
| `Service.IncrCounts` | internal/core/commands.go:103-134 | INCR answers the integer last SET plus all offsets since, in 64-bit two's complement |
| `Service.SetSucceedsIff` | internal/core/commands.go:47-82 | SET succeeds exactly when key, value and TTL are there and key and value are not empty |
| `Service.OtherWordsAnswer` | internal/core/commands.go:38-45 | PING, ECHO and FLUSHDB, and every word that is no command |
| `Service.WriteWordsLog` | internal/persistence/wtd.go:74-118 | the five write words, in any letters, and no others, log the request's four fields |
| `Service.SetRefusals` | internal/core/commands.go:47-82 | what SET refuses and with which error, and what ends the process |
| `Service.IncrRefusals` | internal/core/commands.go:103-134 | what INCR refuses and with which error |
| `Service.OtherRefusals` | internal/core/commands.go:22-191 | what the other words refuse and with which error |
| `Restarts.ReplayedQueue` | internal/core/database.go:234-241 | records PUSH, LPOP and RPOP rebuild what was pushed without its first and last popped items |
| `Restarts.ReplayedCounter` | internal/core/database.go:224-233 | records SET and INCR rebuild the text, or the integer plus the offsets |
| `Restarts.OtherSpellingsAreLost` | internal/core/database.go:219-245 | a write word logged in other than upper case replays to nothing |
| `Requests.ExactVerbIsUpper` | internal/core/commands.go:33-36 | a word that names a command exactly is its own upper-case form, so handler and replay agree on it |
| `Replay.FaithfulReplays` | internal/core/database.go:224-245 | replaying a faithful request's record does to every database what the request did |
| `Replay.ReplayIffFaithful` | internal/core/commands.go:47-191 | replay reproduces a request on every database if and only if the request meets a check on its own fields |
| `Runs.RunMirrorsLog` | internal/core/commands.go:22-209 | at every state of every run of faithful commands, failing ones, FLUSHDB, sweeps, restarts and crashes at any byte, rebuilding from the log gives exactly the live database, unless a command was logged after a cut inside a record and no FLUSHDB or deeper cut has come since |
| `Runs.RestartsAreInvisible` | internal/network/server.go:41-57 | restarts and sweeps that meet a whole log change neither the final state nor the records of a run |
| `Runs.CrashRecovery` | internal/persistence/wtd.go:115-117 | whatever byte of a whole log a crash left last, the rebuilt database is the live one after some prefix of the run that logged exactly the surviving records |
| `Traces.LogHoldsRecords` | internal/core/commands.go:47-201 | for arbitrary requests and crashes a whole log yields the requests logged since the last FLUSHDB and not lost in a crash, and on a boundary it is their encoding |
| `Traces.BoundaryRunsAreWhole` | internal/persistence/wtd.go:115-218 | if every crash cuts after some record, the log is whole and on a boundary at every state of the run |
| `Traces.PrefixWithRecords` | internal/persistence/wtd.go:115-218 | for every number of surviving records some prefix of the run has a whole log with exactly those |
| `Keys.RebuildPanicsIff` | internal/core/database.go:224-233 | replay panics if and only if some record is a SET without value or an INCR without offset |
| `Runs.RestartPanicsIff` | internal/core/database.go:211-248 | a restart on a whole log, after any run, panics if and only if the log holds such a record |
| `Keys.EffectElsewhere` | internal/core/database.go:224-245 | a replayed record leaves every other key alone |
| `Keys.EffectAtKey` | internal/core/database.go:224-245 | what a record leaves under its key depends only on what was there |
| `Keys.Projection` | internal/core/database.go:224-245 | a key's final text, deadline and list depend only on the subsequence of records naming it |
| `Keys.SameOnEveryKey` | internal/core/database.go:224-245 | histories that agree key by key leave the same database |
| `Concurrency.DoKeepsConsistent` | internal/core/commands.go:47-201 | every log step and every apply step of interleaved handlers keeps the log and the database equal to their histories |
| `Concurrency.OrderedPerKey` | internal/core/commands.go:47-191 | the database equals the replay of the log whenever handlers on one key apply in log order |
| `Concurrency.RunKeepsOwned` | internal/core/commands.go:47-201 | without same-key overlap the log is ahead of the database by exactly the records of the handlers in flight, each on its own key |
| `Concurrency.QuiescentReplay` | internal/core/commands.go:47-201 | in every run without same-key overlap, whenever no handler is in flight the log replays to the live database |
| `Concurrency.InstantCells` | internal/core/commands.go:47-201 | a crash at any instant of such a run: a key in flight comes back with its handler's record applied, every other key as it is live |
| `Overlap.CommuteIff` | internal/core/commands.go:47-201 | both orders of two tasks leave the same on every database if and only if a check on their fields says so |
| `Overlap.AnyInstantRecovery` | internal/core/commands.go:47-201 | at every instant of every run in which only commuting tasks overlap, replay gives the live database with the handlers in flight carried to their end |
| `Overlap.CommutingQuiescentReplay` | internal/core/commands.go:47-201 | in every such run, whenever no handler is in flight the log replays to the live database |
| `Overlap.DisjointIsHarmonious` | internal/core/commands.go:47-201 | runs whose handlers in flight share no key are such runs |
| `Overlap.OverlapReverses` | internal/core/commands.go:47-201 | from any quiet state, tasks that end against the order they began: memory has them in one order, a restart in the other |
| `Overlap.OverlapIff` | internal/core/commands.go:47-201 | two tasks may end against the order they began, from every quiet state, if and only if they commute |
| `Overlap.OverlappingSetsDiverge` | internal/core/commands.go:47-82 | two overlapping SETs of one key leave the same in memory and in the log if and only if their values are equal |
| `Convergence.CommandRoundTrip` | internal/utils/conversions.go:11-53 | command to request to command is the identity if and only if the expiry is 0 |
| `Convergence.ForwardedRecord` | internal/utils/conversions.go:11-53 | a forwarded request is loggable if and only if its key is non-empty, and then logs the same bytes |
| `Convergence.ReplicatedRecordIdentity` | internal/cluster/replication/replication_server.go:69-81 | a command the leader executed successfully appends the same bytes on the leader and, whenever it arrives, on every node it is replicated to |
| `Replication.Cluster.ReplicateToFollowers` | internal/cluster/replication/replication_client.go:71-88 | each listed reachable node handles the command once, in whatever order the map is ranged over |
| `Replication.Cluster.ForwardRequest` | internal/cluster/replication/replication_server.go:39-66 | the leader executes and, after success only, replicates; the answer loses a number and the kind of an error |
| `Replication.Cluster.HandleConnection` | internal/network/server.go:130-180 | routing: followers forward exact write words, everything else runs locally, the leader replicates successful writes |
| `Replication.Cluster.SyncRequest` | internal/cluster/replication/replication_client.go:91-122 | the follower handles the leader's loadable records in order, with value and offset always sent |
| `Convergence.FailureIsNoOp` | internal/core/commands.go:103-191 | a failed replicable write changes no database |
| `Convergence.RouteEffect` | internal/network/server.go:137-180 | wherever a replicable write arrives, success logs and applies it once on every node and failure reaches the leader only |
| `Convergence.AnswerAnywhere` | internal/cluster/replication/replication_server.go:39-66 | a successful write gets the leader's answer wherever it arrives, except that a follower's client does not get the number of an INCR |
| `Convergence.FollowersConverge` | internal/cluster/replication/replication_client.go:71-88 | over every run of a connected cluster of reads and of writes with an exact word, a non-empty key, no TTL and no push of the empty string, all databases are equal, and each log holds exactly the successes (followers) or attempts (leader) |
| `Routing.HarmlessIff` | internal/network/server.go:130-180 | a request leaves clean equal databases equal, whatever they hold, without a panic, if and only if its fields, the node it arrives at and the clocks pass a check |
| `Routing.SafeRunsAgree` | internal/network/server.go:130-180 | over every run of requests that pass the check no node panics and all databases stay equal |
| `Routing.AcceptableIsSafe` | internal/network/server.go:130-180 | every read and every write of the plain form passes the check |
| `Routing.LowerCaseStaysLocal` | internal/network/server.go:137-180 | a lower-case set at a follower succeeds there and reaches no other node |
| `Routing.ForwardedEmptyKeyPanics` | internal/cluster/replication/replication_server.go:39-66 | a forwarded write with an empty key panics the leader |
| `SelfListed.TwiceIffSafe` | internal/core/commands.go:47-191 | a successful write is idempotent if and only if it is a SET, an INCR by 0 or a pop of the only element |
| `SelfListed.SelfListedConverges` | internal/cluster/replication/replication_client.go:73-86 | with the leader in its own node map, a successful write at any node keeps the databases equal if and only if it is safe twice |
| `Deliveries.EveryFollowerCatchesUp` | internal/cluster/replication/replication_client.go:71-88 | log step, apply step and each delivery being separate moves: at every instant of every run in which only commuting writes are undelivered together, the writes waiting for a follower, carried out, make it the leader's equal |
| `Deliveries.IdleIsLevel` | internal/cluster/replication/replication_client.go:71-88 | if only commuting writes overlap on the leader too, then whenever nothing is pending all databases and the one the leader's log replays to are the same |
| `Deliveries.SwapIff` | internal/network/server.go:169-179 | two successful writes may reach a follower against the order in which the leader served them, from every level state, if and only if they commute or are a pop from the left and then a push on the right |
| `Sync.SyncIffFaithful` | internal/cluster/replication/replication_client.go:103-113 | sync reproduces a logged request on every database if and only if the request meets a check on its own fields |
| `Sync.SyncedLog` | internal/cluster/replication/replication_client.go:103-113 | a synced follower's log is its old log followed by the leader's bytes |
| `Sync.FollowerSyncs` | internal/cluster/replication/replication_server.go:84-108 | after any run of the leader that left its log whole, restarts and crashes included when its records replay faithfully, a joining follower gets the leader's live database, and its file the leader's records after what it held |
| `Joins.JoinsAgree` | internal/cluster/replication/replication_server.go:84-108 | in every run of a fresh cluster that serves safe requests with sync-faithful records, any node but the leader may join or rejoin at any time, beside whatever log it kept, and all databases stay equal |
| `Joins.RestartAfterJoinIff` | internal/cluster/replication/replication_client.go:91-122 | a follower that kept a log can restart as its leader's equal, whatever the leader logged, if and only if the kept log replays to nothing |
| `Election.Election.Heartbeat` | internal/cluster/election/election_server.go:83-114 | delivered: the receiver lists the sender and the sender takes over the receiver's view; otherwise nothing changes |
| `Election.Election.SmallestNode` | internal/cluster/election/election_server.go:71-76 | the running minimum is the least id of the view and the node itself |
| `Election.Election.RequestVote` | internal/cluster/election/election_server.go:48-80 | a voter answers its live leader, else the least id it knows |
| `Election.Election.RequestVotes` | internal/cluster/election/election_client.go:116-144 | whatever the map order, the votes and the smallest vote are those of asking the peers one by one |
| `Election.Election.ConfirmLeader` | internal/cluster/election/election_client.go:211-231 | confirmed if and only if the candidate is listed and alive |
| `Election.Election.StartLeaderElection` | internal/cluster/election/election_client.go:103-208 | one round: the new views and the outcome, for some order of the peers |
| `ElectionLaws.ElectedIsUnanimous` | internal/cluster/election/election_client.go:154-162 | a commit has at least one answer, all answers equal, and a live leader |
| `ElectionLaws.SharedResponder` | internal/cluster/election/election_client.go:116-162 | two commits that heard the same answer from one node are commits of the same leader |
| `ElectionLaws.RunGrows` | internal/cluster/election/election_client.go:116-171 | over a run in which it starts no round, a leaderless responder's view only gains live ids and it stays leaderless |
| `ElectionLaws.GrownAnswer` | internal/cluster/election/election_server.go:48-80 | its answer stays or becomes a smaller live id |
| `ElectionLaws.SteadyResponderAgreement` | internal/cluster/election/election_client.go:103-208 | a leaderless responder whose least id no live id is below: all commits over the run that hear it elect the same leader |
| `ElectionLaws.RecognisedLeaderWins` | internal/cluster/election/election_server.go:55-68 | while a node follows a live leader, every commit that hears it, over any run of rounds, elects that leader |
| `ElectionLaws.CommonViewElection` | internal/cluster/election/election_client.go:103-208 | from a common view every round of every run elects the least id, and its elector records it, if and only if that id is not -1 |
| `ElectionLaws.CommitIsRecorded` | internal/cluster/election/election_client.go:173-178 | right after a commit of c its elector has c as leader and c's address, whatever it had recorded before |
| `ElectionLaws.CommitLasts` | internal/cluster/election/election_server.go:55-68 | after e has elected another node c with a positive id, every later commit of others that hears e elects c, and e keeps c |
| `ElectionLaws.RetryEffect` | internal/cluster/election/election_client.go:146-171 | where no live leader is recorded, a round without commit changes nothing, except that an unconfirmed listed candidate, which is dead, is dropped |
| `ElectionLaws.RetryMeasure` | internal/cluster/election/election_client.go:146-171 | where no live leader is recorded, over any run without commit the view-changing rounds are exactly the dead entries dropped, and no live entry is lost |
| `Stalling.StalledForever` | internal/cluster/election/election_client.go:147-171 | a state in which no possible round changes or elects anything stays so over every run |
| `Stalling.StalledIff` | internal/cluster/election/election_client.go:147-171 | for any number of nodes without a recorded leader: stalled if and only if every elector hears no vote, differing votes, or one vote for a node it does not list |
| `Stalling.ElectsOrStalls` | internal/cluster/election/election_client.go:103-208 | from every leaderless state some run elects or reaches a stalled state within one round more than there are dead entries |
| `Stalling.RetryingAloneIsFutile` | internal/cluster/election/election_client.go:147-171 | an elector whose peers start no rounds commits at some retry if and only if its first round commits |
| `Stalling.ThreeSurvivorsStallIff` | internal/cluster/election/election_client.go:155-171 | three survivors, one of which has dropped the dead candidate, are stalled if and only if neither id in question is -1 |
| `Stalling.TwoSurvivorsStallIff` | internal/cluster/election/election_client.go:147-171 | two leaderless survivors are stalled if and only if the least id each one knows is -1 or unknown to the other |
| `Failover.CalmIff` | internal/cluster/election/election_server.go:48-80 | a vote leaves no trace if and only if the voter records no live leader or its leader already lists it and has the same view |
| `Failover.AnyStalledIff` | internal/cluster/election/election_client.go:103-208 | any state, with or without live leaders, is stalled if and only if no vote would leave a trace and every elector hears no vote, differing votes, or one vote for a node it does not list |
| `Failover.ElectsIff` | internal/cluster/election/election_client.go:103-208 | with calm peers a round elects a node, in whatever order it asks, if and only if that is the one answer given, listed and alive |
| `Failover.SplitFailover` | internal/cluster/election/election_client.go:154-162 | an elector that lists a follower of a live leader and a leaderless node with another least id gets disagreeing votes |
| `Membership.Leader.Heartbeat` | internal/cluster/election/election_server.go:96-113 | the beat's time and address are recorded and the whole map is answered |
| `Membership.Leader.CleanupInactiveNodes` | internal/cluster/election/election_server.go:125-137 | one pass removes from both maps exactly the nodes silent for more than 15 seconds |
| `Membership.SameDomain` | internal/cluster/server.go:119-129 | heartbeat table and node map have the same members at every reachable state |
| `Membership.ListedIff` | internal/cluster/election/election_server.go:83-137 | a node is listed if and only if every sweep since its latest heartbeat came within 15000 ms; the table holds that heartbeat's time and the node map its address |
| `Membership.NeverRemoved` | internal/cluster/election/election_server.go:125-137 | a node heard within 15 seconds before every sweep is never removed |
| `Membership.StalenessBound` | internal/cluster/election/election_server.go:116-137 | with a sweep in the last `gap`, no listed node has been silent longer than 15 seconds plus the gap |
| `Expiry.DeadlinesHaveKeys` | internal/core/database.go:42-44 | only present strings have deadlines, at every reachable state |
| `Expiry.DeadlineIff` | internal/core/database.go:30-47 | a key has a deadline if and only if it is the time plus the TTL of the latest SET with a TTL, 2^64 less if that leaves 64 bits, not yet passed by a sweep or wiped by a flush |
| `Expiry.PresenceStep` | internal/core/database.go:198-204 | a sweep removes a key if and only if its deadline has passed |
| `Expiry.NeverDroppedEarly` | internal/core/database.go:192-208 | a present key stays until a flush or a sweep after the deadline it then has |
| `Expiry.NotVisibleLong` | internal/core/database.go:192-208 | with a sweep in the last `gap`, a key with a deadline is at most the gap past the time plus the TTL of its SET, unless that sum left 64 bits after the sweep |
| `Expiry.TtlKeepsUntil` | internal/core/database.go:192-208 | a key is there until the first sweep after the time plus the TTL of its SET, absent right after it, and from then on present exactly if stored again |
| `Texts.TextLaw` | internal/core/database.go:30-88 | a key not swept away holds the latest value stored, or the decimal text of its sum with the offsets added since |
| `Texts.NeverStoredIsAbsent` | internal/core/database.go:30-63 | a key that nothing has stored since the start or the latest flush is absent |
| `Decimal.AtoiItoa` | internal/core/database.go:78-85 | parsing undoes printing for every 64-bit integer |
| `Decimal.ItoaAtoi` | internal/core/database.go:78-85 | printing undoes parsing if and only if the text is canonical |
| `Decimal.TextOfInteger` | internal/core/database.go:84 | the text of an integer, digit by digit, with a minus sign in front of a negative one |
| `Decimal.AtoiPadded` | internal/core/database.go:78 | zeros in front and a plus sign do not change what a text parses to, a minus sign negates it |
| `Decimal.AtoiRefuses` | internal/core/database.go:78 | a text with anything but a leading sign and digits is refused |
| `Decimal.Wrap64Is` | internal/core/database.go:83 | a 64-bit result differs from the exact one by a multiple of 2^64 |
| `Counters.CounterTotal` | internal/core/commands.go:103-134 | a run of INCRs all succeed and leave the initial integer plus the offsets in 64-bit two's complement |
| `Counters.ExactTotal` | internal/core/database.go:83-87 | the stored text is the exact sum if and only if the sum fits 64 bits, whatever the partial sums did |
| `Counters.CounterOrderIrrelevant` | internal/core/commands.go:103-134 | rearranging the INCRs changes nothing |
| `Tokenizer.ParsePython` | cmd/client/main.py:5-30 | the Python loop is the Python character step folded over the line |
| `Tokenizer.ParseGo` | cmd/client/main.go:27-60 | the Go loop is the Go character step folded over the line |
| `Tokenizer.TokenizerInvertsQuoting` | cmd/client/main.py:10-27 | tokenizing a quoted line gives back the tokens if and only if there are some, without double quotes and, in Go, without spaces |
| `Tokenizer.TokenizerInvertsTyping` | cmd/client/main.py:10-27 | words typed bare or in quotes, with any spaces before, between and after them, come back as they are; only the Go client takes the spaces out of quoted ones |
| `Tokenizer.ErrorsIff` | cmd/client/main.go:51-60 | both clients refuse a line exactly for an odd number of double quotes or nothing but spaces |
| `Tokenizer.ClientsAgreeIff` | cmd/client/main.go:32-56 | the clients tokenize a line alike if and only if no space is inside quotes or the quotes are unmatched |

## Left out

- gRPC, TCP, msgpack and the protobuf code: an RPC is one delivered-or-failed step, a message a record. `reachable` is the set of nodes a replication reaches.
- Protobuf strings must be valid UTF-8: a command whose word, key, value or offset is not is logged and applied on the leader and then fails every replication and sync call. In the model such a command counts as undelivered: no listed node is reachable for it, and no sync of a log that holds it succeeds.
- Clocks, sleeps and goroutines: the time is an integer that each step reads, one per node in a cluster, and a background loop is a step that may happen at any point of a run.
- The TTL sweeps of different nodes: equal deadlines are proved, but each node removes a key when its own clock passes them, so the databases differ for as long as the sweeps are apart.
- Paths, permissions and disk errors: the log is a byte sequence with a read cursor, and writes to it succeed.
- Response maps, PING and ECHO text, `ReadAllCommands`, `List.Size` and `Database.Len`: only easy members.
- Words outside ASCII: upper-casing is modelled for ASCII letters, so a word that only Unicode case mapping turns into a command is an unknown command here.
- Command building in the clients (`arg_parser` and `argParser` after the tokenizer loop): one field copy per command.
- Replication.Cluster.HandleConnection: one request is served and replicated in one step; handlers that interleave are the subject of `Concurrency` and `Overlap` within one node, and of `Deliveries` between the leader and its followers. A delivery is one step there: the two sections of the follower's own handler are those of `Concurrency`.
- Deliveries.EveryFollowerCatchesUp: the pop and push that `SwapIff` lets swap although they do not commute are not among the writes that may wait together.
- Convergence.FollowersConverge: covers reads and the plain form of a write; `Routing.HarmlessIff` and `Routing.SafeRunsAgree` give the exact condition for every request, without the logs.
- Replay and sync of TTLs: `exp` is not logged, so a request with a TTL is not faithful.
- Election.Election.StartLeaderElection: a round is atomic with respect to other electors; the addresses of a node map are taken to reach the ids they are listed under; `Term` and `CurrentTerm` are carried by the code but never compared, and are not modelled.
- ElectionLaws.RetryMeasure: covers rounds in which nobody is elected; a heartbeat answer after a commit replaces the elector's view by the leader's.
- At most one leader ever: the code does not provide it, because a joined follower has no recorded leader id until its first election.
- The choice between rebuild and sync in `NewServer`, configuration, logging and deployment files.
