# A verification model of ssyncd

ssyncd keeps two firewalls in step. A master watches the "recently seen" tables of a patched xt_recent kernel
module and the HTTP sessions of a load balancer, and copies both to backup nodes, which can write what they received
into their own kernel. This project models that chain in Dafny and proves what it is for: a backup that takes over
decides as the master would have decided, at equal tick counts, and exactly when it does where the counts differ.

The links of the chain, in the order data travels:

| file | what it models |
|---|---|
| `Jiffies.dfy`, `Division.dfy` | the wrapping tick counter and its comparison |
| `Ring.dfy` | the ring of time stamps of one entry, with its 8-bit index, for both kernels |
| `TableModel.dfy`, `MatchModel.dfy` | a table as a value: hash chains, LRU list, lookup, init, update, remove, reap, match |
| `XtRecent.dfy` | the same structures updated in place, every method proved to do what the value model does; the proc file iterator |
| `RecentNet.dfy` | rules that share tables: validation, reference counts, the stamp mask that only grows |
| `LogModel.dfy` | the reference machine, a map that remembers every stamp, and the simulation of it by the table |
| `Text.dfy`, `ProcFile.dfy`, `XtRecentProc.dfy` | the rows of the proc file, the commands it takes, and the daemon's row parser |
| `Rules.dfy`, `Commands.dfy` | what rules and commands mean, said of the history alone |
| `XtRecentSync.dfy` | the comparison of snapshots and what it can miss |
| `Messages.dfy`, `Wire.dfy`, `Codec.dfy` | packets, their byte format, and the cursor code that writes and reads it |
| `Layout.dfy` | the bytes of packets and the texts of rows and commands, position by position |
| `Reassembly.dfy` | cutting packets out of a stream that arrives in arbitrary pieces |
| `Replica.dfy` | what a node holds and what one packet does to it |
| `Protocol.dfy` | the replication protocol as a state machine, its invariant and its runs |
| `Reconnect.dfy` | what a node keeps from an earlier connection, over whole runs |
| `Events.dfy` | what each kind of event does to master and backups, slot by slot |
| `SyncNodes.dfy` | the daemons' data, the master's run loop and the backup's replay, updated in place |
| `WriteBack.dfy` | writing a replicated table back into the kernel |
| `Takeover.dfy` | the composition: write-back of what was replicated, and two hosts with different counters |
| `Polls.dfy` | from what the kernel does between two polls to what the backup decides |

Main results are `Polls.TakesOver` and `Polls.Converges`, which rest on `Takeover.TakeoverDecides` and
`Protocol.Convergence`, then `Polls.TakesOverSkewed`, `Protocol.RecentReplication`, `Protocol.HttpReplication`,
`Reconnect.StaleExactly`, `Reassembly.Reassembles`, `Wire.CodecRoundTrip`, `XtRecentSync.DiffLossless`,
`LogModel.RunsAgree`, `WriteBack.WriteRowsSimulates` and `SyncNodes.SyncMaster.RunOnce`. What the definitions under them
mean is pinned apart from them in `Rules.dfy`, `Commands.dfy`, `Events.dfy` and `Layout.dfy`.

Points at which the code falls short of what it is meant to do are kept as they are, with the exact condition:

- a ring of 256 slots never counts its last slot (`Ring.VerdictOf256`, `Ring.Misjudged256`);
- an inverted UPDATE rule with REAP can update the entry it has just freed (`LogModel.DanglingExactly`,
  `LogModel.DanglingHappens`); runs in `LogModel.RunsAgree` end where that happens;
- a rule with REAP reads the word before the stamps of an entry in a 256-slot ring whose index has wrapped to 0
  (`MatchModel.OutsideExactly`, `MatchModel.OutsideHappens`, `RecentNet.ServedOutside`); what that word holds is a
  parameter, and decides whether the entry goes;
- the comparison of snapshots misses a change that leaves the index as it was (`XtRecentSync.DiffLossless`,
  `XtRecentSync.IndexShows`, `XtRecentSync.WholeTurnIsMissed`);
- a zero stamp is lost between row and parser (`XtRecentProc.RowRoundTrip`);
- a command longer than 421 bytes is refused (`WriteBack.WriteRow`), and so is one that restores an IPv6 address
  (`Commands.StarRefusesIPv6`);
- the receive loop enqueues one packet for ever when the buffer is too full to take it off
  (`Reassembly.DrainStream`, `Reassembly.StuckHappens`);
- only the low byte of listener, service and backend ids is sent (`Wire.IdFieldBack`);
- a backup that reconnects keeps recent entries the master has dropped (`Reconnect.StaleExactly`,
  `Protocol.ReconnectExactly`, `Protocol.ReconnectKeepsStale`);
- stamps are written back as they are, so that a backup whose tick counter differs from the master's can decide
  otherwise (`Takeover.SkewedTakeover`, `Takeover.TwoTimesDecide`).

States of master and backups are compared slot by slot, a slot being a (table, address) or a
(farm, listener, service, key): snapshots carry entries only, so empty tables, farms, listeners and services do not
count. In the protocol both listeners of the master run, delivery is reliable until a disconnect, and steps come in
any order. Each kernel operation is one atomic step, the hash function, HZ and the word before
an entry's stamps are parameters, and an allocation is a parameter that may fail where the code goes on after a failure.

`dafny verify dfyconfig.toml` checks the project.

## Model

| member | source | states |
|---|---|---|
| `Polls.TakesOver` | src/kmodule/xt_recent-4.9.13.c:302-313 | End to end from kernel to kernel: provided that between two polls of a table no address that stayed was stamped as often as its ring has slots, what a drained backup writes back answers every CHECK and UPDATE rule as the master table that was polled last does |
| `Polls.TakesOverSkewed` | src/kmodule/xt_recent-4.9.13.c:302-313 | The same where the tick counters of the two hosts differ: alike exactly if the stamp that decides the rule does not leave the window between the two readings |
| `Polls.Converges` | src/xt_recent/xt_recent_sync.cpp:25-77 | Under the same bound a drained, synced first-connection backup holds the very entries that the latest poll of each table has read |
| `Polls.WatchedIsFaithful` | src/xt_recent/xt_recent_sync.cpp:25-77 | Under that bound no poll of the run has missed a change, and the snapshots are what the latest polls have read |
| `Polls.DrivenIsWatched` | src/kmodule/xt_recent-4.9.13.c:244-328 | The bound holds if between the polls the table went through any lawful run in which addresses present at both polls stayed and were stamped fewer times than there are slots |
| `Polls.CalmRunsAreFaithful` | src/kmodule/xt_recent-4.9.13.c:211-219 | For one such run between two polls: rows of equal index are equal |
| `Polls.PollsAreFaithful` | src/xt_recent/xt_recent_sync.cpp:33-41 | For two tables of which the newer extends the histories of the older by fewer stamps than slots: rows of equal index are equal |
| `Polls.FileIsRead` | src/xt_recent/xt_recent_proc.cpp:87-99 | The file of a table, its lines in any order, is read without an exception and gives rows of its entries |
| `Takeover.SkewedTakeover` | src/kmodule/xt_recent-4.9.13.c:302-313 | Where the counters of the two hosts differ, master and backup answer a rule alike exactly if the stamp that decides it does not leave the window between the two counter values |
| `Takeover.TwoTimesDecide` | src/kmodule/xt_recent-4.9.13.c:302-313 | One table asked at two times: alike exactly under that condition, and for unknown addresses always |
| `Takeover.TakeoverDecides` | src/kmodule/xt_recent-4.9.13.c:302-313 | End to end, over every run of the protocol: once a synced backup on its first connection has drained and no poll has missed a change, writing its entries in any order into a flushed table gives a table on which every CHECK and UPDATE rule returns, for every address and every time, the verdict of the master table that was last polled |
| `Takeover.RewrittenDecides` | src/sync/base_sync.cpp:62-100 | The same from a polled snapshot on: no write is refused and the restored table is again in step with a full history |
| `Takeover.SameVerdict` | src/kmodule/xt_recent-4.9.13.c:285-313 | Verdicts agree on both tables also for addresses that neither or both know, and for rules that ask for the ttl |
| `Takeover.SameHits` | src/kmodule/xt_recent-4.9.13.c:302-313 | One entry carried through row, parse, wire and write-back is hit by the same rules at the same times |
| `Takeover.RowIsRead` | src/xt_recent/xt_recent_proc.cpp:39-60 | The row of an entry without zero stamps is read back whole and names the key it came from |
| `Takeover.WrittenBack` | src/sync/base_sync.cpp:82-97 | The rows of a poll, written to a flushed table, restore exactly the polled keys |
| `Takeover.HoldsSnapshot` | src/xt_recent/xt_recent_sync.cpp:56-77 | A drained, synced backup on its first connection holds the last snapshot of every table, row for row |
| `Takeover.SocketDelivers` | src/connection/connection.cpp:219-252 | The bytes of a protocol channel, however the socket cuts them, come out of the receive loop as the packets the protocol delivers |
| `Events.FarmEventMeans` | src/sync/sync_master.cpp:146-168 | A farm that came or went: the master has no session of it left, no connected backup will have one, counted or not, and every other slot of master and backups stays |
| `Events.SessionEventMeans` | src/sync/sync_master.cpp:169-178 | A session is stored, replaced together with its listener's service, deleted or cleared as its kind says, at the master and, if backups are counted, in what every connected one will hold; every other slot stays |
| `Events.RecentActionMeans` | src/sync/sync_master.cpp:236-250 | Likewise for an entry that is set, deleted or flushed |
| `Events.SessionApplied` | src/sync/base_sync.cpp:326-372 | What a session's action does to any slot of the nested maps, kind by kind |
| `Events.RecentApplied` | src/sync/base_sync.cpp:294-324 | What a recent action does to any slot, kind by kind |
| `Protocol.RecentReplication` | src/sync/sync_master.cpp:229-250 | In every run, a backup on its first connection holds exactly the master's recent entries once its snapshot is sent and its channel drained, and only entries of the master before that; after a reconnect every entry of the master is there and equal |
| `Protocol.HttpReplication` | src/sync/sync_master.cpp:133-225 | The same for sessions, across disconnects, reconnects and farms that come and go, without the restriction to a first connection |
| `Reconnect.StaleExactly` | src/sync/sync_backup.cpp:52-64 | In every run and for every connection: a drained backup holds the master's value where anything was sent about an address since it was accepted, and what the node had kept everywhere else; so a synced one differs from the master exactly where the master has nothing, the node had kept an entry, and nothing was sent about it |
| `Reconnect.RunRecalls` | src/sync/sync_master.cpp:78-276 | The invariant behind it, over any sequence of steps |
| `Reconnect.KeptIsHeld` | src/sync/sync_backup.cpp:52-64 | What counts as kept: the recent entries held when the connection was accepted, and no sessions |
| `Protocol.LoseKeeps` | src/connection/connection.cpp:204-216 | A connection whose other end is gone unnoticed harms nothing, and the node may connect again beside it |
| `Protocol.ReconnectExactly` | src/sync/sync_backup.cpp:52-64 | From every state at rest a reconnect runs through, and then the node agrees with the master about an address exactly if the master has it or the node had not kept it |
| `Protocol.ReconnectKeepsStale` | src/sync/sync_backup.cpp:52-64 | A run, for any entry, after which a reconnected node still holds what the master has dropped |
| `Protocol.Convergence` | src/xt_recent/xt_recent_sync.cpp:25-77 | With queue and channel drained, a synced first-connection backup has the addresses and indices of the latest snapshots in every run, and the very entries if no poll missed a change |
| `Protocol.ChannelsCarried` | src/connection/connection.cpp:329-380 | Everything ever put on a channel is a packet the codec carries without loss |
| `Protocol.RunKeeps` | src/sync/sync_master.cpp:78-276 | The invariant that links master, count of backups, queues, channels and backups holds after any sequence of steps |
| `Protocol.StepKeeps` | src/sync/sync_master.cpp:87-276 | Each of the twelve kinds of step keeps the invariant |
| `Protocol.BroadcastViews` | src/connection/connection.cpp:346-357 | Sending to all connected nodes keeps every backup's future view equal to, or below, the master |
| `Protocol.SilentViews` | src/sync/sync_master.cpp:176-177 | Where no backup is counted nothing needs to be sent: nobody connected has seen anything yet |
| `Protocol.SnapshotViews` | src/sync/sync_master.cpp:99-107 | A snapshot behind whatever is in flight makes that backup's future view equal to the master |
| `Protocol.SnapshotEffects` | src/sync/sync_master.cpp:24-72 | The adds of a snapshot agree, slot by slot and in any order, with what the master holds |
| `Protocol.DeliverViews` | src/sync/sync_backup.cpp:66-148 | Applying the head of the channel does not change what the backup will hold in the end |
| `Protocol.AcceptViews` | src/sync/sync_backup.cpp:52-64 | A node that connects starts without sessions, and without recent entries only the first time |
| `Protocol.AcceptCounts` | src/sync/sync_master.cpp:93-111 | The counter of backups lags behind the connections by exactly the queued connects and disconnects |
| `Protocol.PollKeepsTracks` | src/xt_recent/xt_recent_sync.cpp:25-54 | Queueing a poll's actions keeps the queue leading to the latest snapshots |
| `Protocol.PopKeepsTracks` | src/sync/sync_master.cpp:229-250 | Applying the head of the queue keeps it leading there |
| `Protocol.ReplicatedKeeps` | src/sync/sync_master.cpp:169-178 | Apply then broadcast keeps the views whether or not backups are counted |
| `Protocol.ClearedKeeps` | src/sync/sync_master.cpp:147-168 | So does a farm's clear, which is broadcast whatever the count is |
| `Protocol.StillSound` | src/sync/base_sync.cpp:294-372 | Whatever the master stores can be sent, and its add puts it back into the slot it came from |
| `Protocol.WireKeepsEffect` | src/http/http_parser.cpp:92-98 | For ids below 256 the shifted id bytes do not change what a packet does |
| `SyncNodes.SyncMaster.RunOnce` | src/sync/sync_master.cpp:87-276 | One turn: a waiting request is taken off and answered, with the count moved by one or a snapshot of everything sent to the open connection that asked, and nothing else changes; else a pause after an idle turn changes nothing; else both queues are drained and it waits exactly if both ran empty before ten. The turn is a run of the protocol |
| `SyncNodes.SyncMaster.RunTurns` | src/sync/sync_master.cpp:87-276 | Queues that nobody adds to are empty after as many turns as they held entries, and one pause |
| `SyncNodes.SyncMaster.DrainHttp` | src/sync/sync_master.cpp:134-225 | The http drain pops the whole queue, or exactly as far as the tenth session's event; it waits exactly if fewer than ten were there |
| `SyncNodes.SyncMaster.DrainRecent` | src/sync/sync_master.cpp:230-275 | The recent drain pops exactly min(10, queued) actions and waits exactly if it ran empty before ten |
| `SyncNodes.SyncMaster.DrainBoth` | src/sync/sync_master.cpp:133-276 | Both drains are one draining phase of the protocol, of exactly those pops |
| `SyncNodes.SyncMaster.HandleRequest` | src/sync/sync_master.cpp:90-114 | The head of the queue is answered, which is the protocol's Handle step with the snapshot that was sent |
| `SyncNodes.SyncMaster.HandleSync` | src/sync/sync_master.cpp:99-107 | What is sent to the node that asked is a snapshot of everything the master holds |
| `SyncNodes.SyncMaster.HandleRecentSync` | src/sync/sync_master.cpp:24-43 | The nested loops send one add for every entry of every table, and nothing on a closed connection |
| `SyncNodes.SyncMaster.SendTable` | src/sync/sync_master.cpp:29-39 | The inner loop sends one add for each entry of a table |
| `SyncNodes.SyncMaster.HandleHttpSync` | src/sync/sync_master.cpp:45-72 | The nested loops send one add for every session of every farm |
| `SyncNodes.SyncMaster.SendSessions` | src/sync/sync_master.cpp:55-67 | The innermost loop sends one add for each session of a service |
| `SyncNodes.SyncMaster.PopHttpEvent` | src/sync/sync_master.cpp:140-178 | Slot by slot what the event does to the data, and the packet each connection gets: the action if backups are counted, a clear request whatever the count for a farm that came or went |
| `SyncNodes.SyncMaster.PopRecentAction` | src/sync/sync_master.cpp:236-250 | Slot by slot what the action does to the data, and the packet each connection gets if backups are counted |
| `SyncNodes.SyncMaster.SendToAll` | src/connection/connection.cpp:346-357 | Every connected node gets the packet once, behind what it was sent before |
| `SyncNodes.SyncBackup.Replay` | src/sync/sync_backup.cpp:37-148 | Replaying what was received applies it in order |
| `SyncNodes.SyncBackup.Dispatch` | src/sync/sync_backup.cpp:66-148 | The switch on the packet type applies recent and http actions and ignores the rest |
| `SyncNodes.SyncBackup.Reconnected` | src/sync/sync_backup.cpp:52-64 | A reconnect drops the sessions and keeps the recent entries |
| `SyncNodes.BaseSync.ApplyRecentAction` | src/sync/base_sync.cpp:294-324 | The nested map after each kind of recent action |
| `SyncNodes.BaseSync.ApplyHttpAction` | src/sync/base_sync.cpp:326-372 | The nested maps after each kind of http action |
| `SyncNodes.BaseSync.ClearHttpFarmData` | src/sync/base_sync.cpp:230-233 | A farm that is there loses its sessions |
| `Replica.ApplyEffect` | src/sync/base_sync.cpp:294-372 | Given one service for each listener, a packet does the same to a slot in every state |
| `Replica.ApplyKeepsOneService` | src/sync/base_sync.cpp:341-347 | No action leaves a listener with two services |
| `Replica.ApplyHttpEffect` | src/sync/base_sync.cpp:326-372 | An add for another service empties the listener's old one, an add for the same service does not |
| `Replica.ApplyAllFinal` | src/sync/sync_backup.cpp:37-148 | The value of a slot after a sequence of packets depends on nothing but its value before |
| `Replica.FinalUniform` | src/sync/sync_master.cpp:24-72 | Packets that agree on what a slot becomes may be sent in any order |
| `XtRecentSync.Listener.GetTableUpdates` | src/xt_recent/xt_recent_sync.cpp:25-54 | Queues exactly one action for each address that is new, shows another index or is gone |
| `XtRecentSync.Listener.Poll` | src/xt_recent/xt_recent_sync.cpp:66-74 | And then the table's snapshot is the new one and the others are as they were |
| `XtRecentSync.GetTable` | src/xt_recent/xt_recent_proc.cpp:87-99 | The loop over the lines keeps the last row of each address and fails with the first row that fails |
| `XtRecentSync.TableIsKeyed` | src/xt_recent/xt_recent_proc.cpp:92-97 | Every row is stored under its own address |
| `XtRecentSync.DiffReplay` | src/xt_recent/xt_recent_sync.cpp:25-54 | Replayed on any value, a poll's actions set what is fresh, drop what is gone and leave the rest |
| `XtRecentSync.DiffKeepsKeys` | src/xt_recent/xt_recent_sync.cpp:25-54 | Replayed on the old snapshot they give the new addresses and indices |
| `XtRecentSync.DiffLossless` | src/xt_recent/xt_recent_sync.cpp:33-41 | They give the new snapshot itself exactly if no entry changed without changing its index |
| `XtRecentSync.IndexShows` | src/kmodule/xt_recent-4.9.13.c:211-219 | After d more stamps the index of an n-slot ring is the same exactly if n divides d |
| `XtRecentSync.FewTouchesAreFaithful` | src/kmodule/xt_recent-4.9.13.c:211-219 | An entry touched fewer times than its ring has slots is never missed |
| `XtRecentSync.WholeTurnIsMissed` | src/xt_recent/xt_recent_sync.cpp:33-37 | A concrete ring that turned once: the row changed and the comparison sees nothing |
| `Reassembly.Reassembles` | src/connection/connection.cpp:219-252 | For every packet sequence and every chunking, the loop never leaves the buffer, reads on exactly while the chunks flow, and has then yielded the complete packets in order and kept the bytes of the next |
| `Reassembly.AllArrive` | src/connection/connection.cpp:219-252 | Once the whole stream has flowed in, every packet is out and nothing is left |
| `Reassembly.DrainStream` | src/connection/connection.cpp:244-250 | One drain gets stuck exactly where a packet finds no room behind the buffered bytes, and never in the http loop |
| `Reassembly.SmallChunksFlow` | src/connection/connection.cpp:184-194 | Chunks that leave room for two packets (one in the http loop) always flow |
| `Reassembly.NextOfStream` | src/sync/pkt_parser.cpp:40-50 | A prefix of a stream parses to its first packet, or is incomplete if that packet is |
| `Reassembly.OnePacket` | src/connection/connection.cpp:244-250 | A single buffered packet is taken off exactly if the buffer has room for it twice |
| `Reassembly.FilledAtOnce` | src/http/http_sync.cpp:48-62 | One recv that fills the empty buffer is drained by the http loop, the same bytes in several are taken for a disconnect |
| `Reassembly.ForeignPacket` | src/http/http_parser.cpp:31-36 | The http loop waits for ever at a packet of another type |
| `Reassembly.ReceivedAt` | src/connection/connection.cpp:184-194 | The buffer after a receive, byte by byte |
| `Reassembly.DrainBelowFive` | src/connection/connection.cpp:249-250 | Stopping below five bytes is where the parser would stop anyway |
| `Reassembly.StreamAfter` | src/connection/connection.cpp:244-248 | What is left behind the complete packets is the stream of the others |
| `Reassembly.WholeOn` | src/connection/connection.cpp:219-252 | How many packets are complete does not depend on where the stream was cut before |
| `Reassembly.ConnectionData.DrainConnection` | src/connection/connection.cpp:219-252 | The loop with its in-place shift does what the drain of the buffered bytes says |
| `Reassembly.ConnectionData.DrainHttp` | src/http/http_sync.cpp:79-139 | The second loop likewise, and every action gets the name of its farm |
| `Reassembly.ConnectionData.MoveDown` | src/connection/connection.cpp:246-247 | memmove brings the unread bytes to the front |
| `Reassembly.ConnectionData.Receive` | src/connection/connection.cpp:184-194 | A chunk lands behind the buffered bytes |
| `Layout.UpdateLayout` | src/xt_recent/xt_recent_parser.cpp:80-125 | The bytes of an entry's update, field by field, of any number of stamps |
| `Layout.StampAt` | src/xt_recent/xt_recent_parser.cpp:100-106 | Each stamp lies lowest byte first |
| `Layout.DeleteLayout` | src/xt_recent/xt_recent_parser.cpp:80-125 | The bytes of a deletion |
| `Layout.TableLayout` | src/xt_recent/xt_recent_parser.cpp:80-125 | The bytes of a flush and of a table's removal |
| `Layout.SessionLayout` | src/http/http_parser.cpp:79-128 | The bytes of a session's action: low bytes of the ids, the key, and for ADD, UPDATE and WRITE content and time |
| `Layout.RequestLayout` | src/http/http_parser.cpp:79-128 | A synchronisation request carries the farm alone |
| `Wire.CodecRoundTrip` | src/xt_recent/xt_recent_parser.cpp:37-125 | Decoding an encoded packet with anything behind it gives it back, ids modulo 256 and only the fields its action carries, and consumes exactly its encoding |
| `Wire.PrefixIsIncomplete` | src/connection/packet_parser.cpp:39-58 | No strict prefix of an encoding is a packet, whatever stale bytes lie behind it |
| `Wire.TakeRecentBack` | src/xt_recent/xt_recent_parser.cpp:37-78 | Round trip of recent actions for canonical IPv4 addresses |
| `Wire.TakeHttpBack` | src/http/http_parser.cpp:31-77 | Round trip of http actions |
| `Wire.IdFieldBack` | src/http/http_parser.cpp:93-98 | Only the low byte of an id survives the left shift |
| `Wire.AddressRoundTrip` | src/helpers/utils.h:38-49 | Splitting and converting a dotted address gives its four bytes |
| `Wire.StampsRoundTrip` | src/xt_recent/xt_recent_parser.cpp:60-66 | Time stamps survive eight little-endian bytes each |
| `Wire.HeaderBack` | src/connection/packet_parser.cpp:21-33 | The header announces the length and the type |
| `Wire.EncodedSize` | src/xt_recent/xt_recent_parser.cpp:80-125 | No sendable packet is longer than 2309 bytes |
| `Codec.SerializeRecent` | src/xt_recent/xt_recent_parser.cpp:80-125 | The cursor, the terminator given back and the patched length leave exactly the encoding; it fails exactly where an address part is no number |
| `Codec.SerializeHttp` | src/http/http_parser.cpp:79-128 | The cursor and the patched length leave exactly the encoding and nothing behind it |
| `Codec.PutLong` | src/xt_recent/xt_recent_parser.cpp:100-106 | Eight shifts write a stamp little-endian |
| `Codec.PutId` | src/http/http_parser.cpp:93-98 | The four wrongly shifted bytes of an id |
| `Codec.GetIpAddressV4` | src/helpers/utils.h:38-49 | The token loop collects one byte for each part and fails where a part is no number |
| `Codec.GetRecent` | src/xt_recent/xt_recent_parser.cpp:44-75 | The cursor reads the action at the front of the bytes, or would leave the array |
| `Codec.GetHttp` | src/http/http_parser.cpp:45-74 | The same for http actions |
| `Codec.GetLittleEndian` | src/http/http_parser.cpp:50-55 | Or-ing shifted bytes gives the number they encode |
| `Codec.Deserialize` | src/sync/pkt_parser.cpp:40-50 | Header test and dispatch by type give what the buffer denotes |
| `Rules.TestMeans` | src/kmodule/xt_recent-4.9.13.c:302-324 | What CHECK and UPDATE answer, said of the full history: a known address is hit if max(1, hit count) of its stamps are no older than seconds * HZ, computed in 32 bits, or of any age without seconds |
| `Rules.CheckMeans` | src/kmodule/xt_recent-4.9.13.c:302-313 | The same without overflow and without the definitions it is built from |
| `Rules.TestLeaves` | src/kmodule/xt_recent-4.9.13.c:302-324 | What they leave: unknown addresses change nothing; under REAP the address used longest ago goes if its last stamp is out of the window, and then an UPDATE that matches stamps the address and sets its ttl, or finds it freed |
| `Rules.SetMeans` | src/kmodule/xt_recent-4.9.13.c:287-299 | SET matches always: a known address goes to the end of the order of use with one more stamp and the new ttl, a new one is entered, in a full table in place of the one used longest ago |
| `Rules.SetStarves` | src/kmodule/xt_recent-4.9.13.c:288-294 | Without memory SET on a new address drops the packet, after the eviction |
| `Rules.RemoveMeans` | src/kmodule/xt_recent-4.9.13.c:299-301 | REMOVE matches the known addresses and forgets them |
| `Rules.AcceptedForms` | src/kmodule/xt_recent-4.9.13.c:350-374 | The forms of rules that are accepted, one by one |
| `Commands.PlusMeans` | src/kmodule/xt_recent-4.9.13.c:606-697 | "+addr", from the text on: a known address gets one more stamp and keeps its ttl, any other is entered with ttl 0; the reply is the length |
| `Commands.MinusMeans` | src/kmodule/xt_recent-4.9.13.c:602-699 | "-addr": the address is forgotten |
| `Commands.SlashMeans` | src/kmodule/xt_recent-4.9.13.c:596-617 | "/" forgets all; an empty text is a success, a text too long or with another first character is refused and changes nothing |
| `Commands.StarMeans` | src/kmodule/xt_recent-4.9.13.c:684-694 | "*" on an address that is there: its listed stamps follow the ones it has, and its ttl stays |
| `Commands.StarRefusesIPv6` | src/kmodule/xt_recent-4.9.13.c:620-646 | "*" refuses every IPv6 address, as the family is looked for behind the address |
| `LogModel.RunsAgree` | src/kmodule/xt_recent-4.9.13.c:244-328 | Over every run of packets, commands, flushes and growth spanning at most half the counter's range, the hashed table of rings of at most 128 slots gives the verdicts of a map that remembers every stamp, up to and including the first update of a freed entry |
| `LogModel.SafeSimulates` | src/kmodule/xt_recent-4.9.13.c:244-328 | A run without such an update leaves table and history in step |
| `LogModel.StaysExtends` | src/kmodule/xt_recent-4.9.13.c:244-328 | An address that is not removed, evicted, reaped or flushed gains at most as many stamps as there were operations that may stamp it |
| `LogModel.MatchSimulates` | src/kmodule/xt_recent-4.9.13.c:285-324 | One match: same verdict, and table and history stay in step, in LRU order and in time order |
| `LogModel.LookupIsMap` | src/kmodule/xt_recent-4.9.13.c:128-147 | The chained lookup finds an entry exactly if the map has the key with a fitting ttl |
| `LogModel.UniqueKeys` | src/kmodule/xt_recent-4.9.13.c:285-295 | At most one entry of an address is live |
| `LogModel.AdmitSimulates` | src/kmodule/xt_recent-4.9.13.c:176-209 | A full table evicts the address used longest ago |
| `LogModel.TouchSimulates` | src/kmodule/xt_recent-4.9.13.c:211-221 | An update moves the entry to the end of the LRU list and appends to its history |
| `LogModel.RemoveSimulates` | src/kmodule/xt_recent-4.9.13.c:149-155 | A removal takes the key out of the map |
| `LogModel.ReapIsExpiry` | src/kmodule/xt_recent-4.9.13.c:160-174 | Reap takes the head of the LRU list exactly if all its stamps are out of the window |
| `LogModel.ReapSimulates` | src/kmodule/xt_recent-4.9.13.c:160-174 | So it expires the address used longest ago |
| `LogModel.DanglingExactly` | src/kmodule/xt_recent-4.9.13.c:315-324 | The match goes on to update the entry its own reap freed exactly for an inverted UPDATE rule with REAP that meets the least recently used entry with every stamp out of the window |
| `LogModel.WithoutKeyed` | src/kmodule/xt_recent-4.9.13.c:149-155 | Taking an entry out of the LRU list takes its key out of the order of use |
| `LogModel.NoneRecent` | src/kmodule/xt_recent-4.9.13.c:306-313 | Stamps that have all expired are no hits |
| `Jiffies.WindowIsRealTime` | src/kmodule/xt_recent-4.9.13.c:302-313 | The wrapping comparison agrees with real time exactly when the stamp is at most half the range older than the window |
| `Ring.VerdictIsHistory` | src/kmodule/xt_recent-4.9.13.c:302-313 | A ring of at most 255 slots gives the verdict of the whole history to every rule that asks for no more hits than it has slots |
| `Ring.VerdictOf256` | src/kmodule/xt_recent-4.9.13.c:211-219 | With 256 slots the verdict is wrong exactly when the stamp in the never-counted last slot is in the window and was needed |
| `Ring.Misjudged256` | src/kmodule/xt_recent-4.9.13.c:211-219 | A concrete history on which a 256-slot ring answers wrongly |
| `LogModel.DanglingHappens` | src/kmodule/xt_recent-4.9.13.c:315-324 | A kernel table on which it happens: one address seen once, and met again one tick after it has left the window |
| `MatchModel.OutsideExactly` | src/kmodule/xt_recent-4.9.13.c:160-174 | Reap reads before the stamps of an entry exactly if a rule with REAP finds its address, the rings have 256 slots and the entry used longest ago was stamped a positive multiple of 256 times |
| `MatchModel.OutsideHappens` | src/kmodule/xt_recent-4.9.13.c:160-174 | A kernel table on which it happens: one address stamped 256 times |
| `RecentNet.ServedOutside` | src/kmodule/xt_recent-4.9.13.c:376-395 | It happens on a table that serves two acceptable rules, of which the other has asked for the 256 slots |
| `RecentNet.WideRings` | src/kmodule/xt_recent-4.9.13.c:376-381 | Rings of 256 slots are made exactly for more than 128 hits or packets |
| `Ring.IndexZero` | src/kmodule/xt_recent-4.9.13.c:211-219 | The index is 0 exactly after a positive multiple of 256 stamps in 256 slots |
| `Ring.TwoTimes` | src/kmodule/xt_recent-4.9.13.c:302-313 | Asked at two times a history answers alike exactly if the tick that decides the rule does not leave the window between them |
| `Ring.HitByAge` | src/kmodule/xt_recent-4.9.13.c:306-313 | A rule is hit exactly if the tick as many places from the end as it asks for is in the window |
| `Jiffies.WindowNearby` | src/kmodule/xt_recent-4.9.13.c:302-313 | The wrapping comparison is right up to half the range on either side of the edge of the window, stamps of the future included |
| `Reassembly.StuckHappens` | src/connection/connection.cpp:244-250 | In a buffer of the size that the daemon allocates, whatever stream has one byte less than that ready at once gets the loop stuck at its first packet |
| `Ring.AfterStamps` | src/kmodule/xt_recent-4.9.13.c:176-221 | After any number of stamps the ring shows exactly the last min(k, N), and the newest lies at index - 1 |
| `Ring.AfterStampsModulo` | src/kmodule/xt_recent-3.16.43.c:171-213 | The same for the modulus ring of any size from 1 to 255 |
| `Ring.StoreHolds` | src/kmodule/xt_recent-4.9.13.c:211-219 | One store keeps the ring equal to the end of the history |
| `Ring.AndIsModulo` | src/kmodule/xt_recent-4.9.13.c:213 | The mask is a modulus for power-of-two sizes |
| `Ring.HitsOfNewest` | src/kmodule/xt_recent-4.9.13.c:306-313 | The order of the slots does not matter to the count |
| `Ring.Hits` | src/kmodule/xt_recent-4.9.13.c:306-313 | No more hits than stamps |
| `Ring.HitsConcat` | src/kmodule/xt_recent-4.9.13.c:306-313 | Hits add up over parts of the history |
| `Ring.AllRecent` | src/kmodule/xt_recent-4.9.13.c:306-313 | Stamps that are all in the window all count |
| `Ring.RecentOfNewest` | src/kmodule/xt_recent-4.9.13.c:306-313 | In an ordered history the recent stamps are the newest ones |
| `TableModel.HashSize` | src/kmodule/xt_recent-4.9.13.c:827 | The number of buckets is above ip_list_tot and at most twice it |
| `TableModel.EntryInBucket` | src/kmodule/xt_recent-4.9.13.c:203-207 | An entry is linked into the one bucket that its masked hash names |
| `TableModel.LowBits` | src/kmodule/xt_recent-4.9.13.c:119-125 | Masking the hash with that number less one is taking its remainder, as the number is a power of two |
| `TableModel.RemoveValid` | src/kmodule/xt_recent-4.9.13.c:149-155 | Removal keeps buckets, LRU list and entry count in agreement |
| `TableModel.AppendValid` | src/kmodule/xt_recent-4.9.13.c:203-208 | So does linking a new entry |
| `TableModel.TouchValid` | src/kmodule/xt_recent-4.9.13.c:211-221 | So does an update |
| `TableModel.ChainsGone` | src/kmodule/xt_recent-4.9.13.c:234-242 | Walking only the buckets empties the LRU list too |
| `TableModel.ChainsAreLru` | src/kmodule/xt_recent-4.9.13.c:203-208 | Buckets and LRU list hold the same entries once each, as many as the counter says |
| `MatchModel.MatchValid` | src/kmodule/xt_recent-4.9.13.c:244-328 | Every match keeps the table well formed |
| `MatchModel.InitValid` | src/kmodule/xt_recent-4.9.13.c:176-209 | So does a new entry in a full table: the count stays at most ip_list_tot |
| `XtRecent.RecentEntry.Seen` | src/kmodule/xt_recent-4.9.13.c:306-313 | The loop with its continue and break finds a hit exactly if enough stamps are in the window |
| `XtRecent.RecentEntry.Push` | src/kmodule/xt_recent-4.9.13.c:211-219 | The in-place update of index, slot and count |
| `XtRecent.RecentEntry.PushModulo` | src/kmodule/xt_recent-3.16.43.c:203-213 | The same with the modulus |
| `XtRecent.RecentTable.Lookup` | src/kmodule/xt_recent-4.9.13.c:128-147 | The chain walk finds what the model's lookup finds |
| `XtRecent.RecentTable.Init` | src/kmodule/xt_recent-4.9.13.c:176-209 | Evict, allocate, link |
| `XtRecent.RecentTable.Update` | src/kmodule/xt_recent-4.9.13.c:211-221 | Ring and LRU list change together |
| `XtRecent.RecentTable.Reap` | src/kmodule/xt_recent-4.9.13.c:160-174 | The head goes exactly if its newest stamp, or at index 0 the word before its stamps, is out of the window |
| `XtRecent.RecentTable.Flush` | src/kmodule/xt_recent-4.9.13.c:234-242 | The walk over the buckets leaves the empty table |
| `XtRecent.RecentTable.Grow` | src/kmodule/xt_recent-4.9.13.c:385-391 | A larger mask flushes first |
| `XtRecent.RecentTable.Match` | src/kmodule/xt_recent-4.9.13.c:244-328 | The whole match: table, verdict, the read before an array and the update of a freed entry |
| `XtRecent.RecentTable.ProcWrite` | src/kmodule/xt_recent-4.9.13.c:566-706 | Every command, with its replies and its faults |
| `XtRecent.RecentTable.SeqStart` | src/kmodule/xt_recent-4.9.13.c:487-502 | Returns the entry at a position of the listing |
| `XtRecent.RecentTable.SeqNext` | src/kmodule/xt_recent-4.9.13.c:504-518 | Returns the next one and advances the position only if there is one |
| `XtRecent.RecentTable.Read` | src/kmodule/xt_recent-4.9.13.c:487-518 | A read returns a slice of the listing and the position to resume at, which is that of the last entry once the listing has ended |
| `Seqs.SlicesContinue` | src/kmodule/xt_recent-4.9.13.c:487-518 | Two reads of which the second resumes are one longer read |
| `RecentNet.MaskFor` | src/kmodule/xt_recent-4.9.13.c:376-381 | The mask is one less than the smallest power of two that is not below the wanted number, and has a slot for every hit asked for |
| `RecentNet.Net.Check` | src/kmodule/xt_recent-4.9.13.c:335-439 | Exactly the acceptable rules are accepted; one finds the table as it was if that remembers as many stamps as are wanted (the parameter, the hit count or 32), and else a new or emptied one whose mask is the smallest that does; every live rule stays served |
| `RecentNet.DefaultServes` | src/kmodule/xt_recent-4.9.13.c:376-395 | With the default parameter a first rule without a hit count opens a table of 32 slots, and a rule for up to 32 hits joins it without a flush |
| `RecentNet.Net.Destroy` | src/kmodule/xt_recent-4.9.13.c:459-479 | One reference less; the last rule takes the table with it |
| `RecentNet.Net.Packet` | src/kmodule/xt_recent-4.9.13.c:244-328 | Whatever rules came and went, a live rule finds a table whose rings have a slot for every hit it asks for |
| `RecentNet.JoinServing` | src/kmodule/xt_recent-4.9.13.c:385-395 | A rule that joins leaves every other rule served |
| `RecentNet.MatchKeepsMask` | src/kmodule/xt_recent-4.9.13.c:244-328 | Packets do not change the mask |
| `XtRecentProc.RowRoundTrip` | src/xt_recent/xt_recent_proc.cpp:39-60 | Parsing a printed IPv4 row recovers address, ttl, index and the visible stamps in slot order, all of them exactly when none is zero |
| `XtRecentProc.SourceOfDotted` | src/xt_recent/xt_recent_proc.h:31-33 | The address pattern, matched greedily with any character between its groups, takes exactly a printed IPv4 address |
| `XtRecentProc.NonZeroKeeps` | src/xt_recent/xt_recent_proc.cpp:53-57 | Dropping zeros drops nothing exactly when there are none |
| `XtRecentProc.LastSeenReads` | src/xt_recent/xt_recent_proc.cpp:39-52 | What a row shows as last seen reads as the newest stamp |
| `Layout.RowLayout` | src/kmodule/xt_recent-4.9.13.c:526-545 | A row, text by text |
| `Layout.CommandText` | src/sync/base_sync.cpp:85-88 | A command, character by character, for one entry |
| `Polls.FileIsPolled` | src/xt_recent/xt_recent_proc.cpp:87-99 | The whole file of a table that can be restored, its lines in any order, is read into exactly the poll that the takeover asks for |
| `ProcFile.LastSeenSlot` | src/kmodule/xt_recent-4.9.13.c:533 | last_seen is the stamp at index - 1 |
| `WriteBack.WriteTable` | src/sync/base_sync.cpp:62-97 | One command for each entry, in some order, each once; one loop stops at a refused write and the other goes on; the one that stops has had no earlier refusal, and leaves a table alone that it has no entries for |
| `WriteBack.WriteEntry` | src/sync/base_sync.cpp:83-96 | One open, write and close |
| `WriteBack.WriteRow` | src/kmodule/xt_recent-4.9.13.c:650-682 | A writable row becomes the entry of its sorted stamps, any other leaves the table alone, and it is refused exactly when its command exceeds 421 bytes |
| `WriteBack.WriteRowsSimulates` | src/sync/base_sync.cpp:82-97 | Writing at most ip_list_tot rows to a flushed table evicts nothing and leaves exactly the writable ones |
| `WriteBack.RowsAreRecords` | src/sync/base_sync.cpp:82-97 | Rows of distinct addresses are distinct keys, and no others appear |
| `WriteBack.CommandTokens` | src/sync/base_sync.cpp:85-88 | The kernel splits a command into the fields it was built from and finds the address |
| `WriteBack.NumbersOfDecimals` | src/kmodule/xt_recent-4.9.13.c:674-681 | The stamps are read back in order and the final empty token is skipped |
| `WriteBack.RestoredShows` | src/kmodule/xt_recent-4.9.13.c:533-542 | A restored entry shows its largest min(n, N) stamps, and the maximum as last_seen |
| `WriteBack.RestoredVerdict` | src/kmodule/xt_recent-4.9.13.c:306-313 | If its ring has room, it gives every rule the verdict that the stamps gave |
| `WriteBack.HitsSorted` | src/sync/base_sync.cpp:84 | Sorting does not change how many stamps are in the window |
| `WriteBack.PutAllHolds` | src/kmodule/xt_recent-4.9.13.c:674-681 | The token loop leaves the ring of the whole list |
| `WriteBack.InsertAscending` | src/sync/base_sync.cpp:84 | Inserting keeps a sorted list sorted and adds exactly the new element |
| `Reassembly.RealBuffersFlow` | src/connection/connection.cpp:184-194 | In the buffers the daemons allocate, chunks of at most 6.5 million bytes always flow |
| `Reassembly.AfterIsTail` | src/connection/connection.cpp:219-252 | The packets that are not complete are the rest of the packets |
| `Reassembly.CutAll` | src/connection/connection.cpp:219-252 | The whole stream completes every packet |
| `LogModel.LogDanglingExactly` | src/kmodule/xt_recent-4.9.13.c:315-324 | In the reference machine: the update of a forgotten key happens exactly in the stale case |
| `LogModel.RunSimulates` | src/kmodule/xt_recent-4.9.13.c:244-328 | The same answers from any pair of table and history in step |
| `LogModel.AgainChronicle` | src/kmodule/xt_recent-4.9.13.c:211-221 | An update keeps the keys in order of last use |
| `LogModel.ForgetChronicle` | src/kmodule/xt_recent-4.9.13.c:149-155 | So does a removal |
| `LogModel.NewChronicle` | src/kmodule/xt_recent-4.9.13.c:176-209 | So does a new key |
| `Protocol.SnapshotView` | src/sync/sync_master.cpp:24-72 | Whatever was in flight before it, after a snapshot a backup agrees with the master |
| `Protocol.BroadcastUnsent` | src/sync/sync_master.cpp:147-158 | While nobody is counted, the clears that are sent leave newcomers empty |
| `Protocol.SettlingView` | src/sync/sync_backup.cpp:37-148 | Replaying a channel gives the view the invariant speaks of |
| `Protocol.AskKeeps` | src/sync/sync_backup.cpp:35-38 | Asking for a snapshot, however often, is harmless |
| `Protocol.InitialInv` | src/sync/base_sync.cpp:235-238 | Master and backups start empty |
| `Replica.FinalConcat` | src/sync/sync_backup.cpp:37-148 | A channel may be replayed in parts |
| `Takeover.AllRows` | src/sync/base_sync.cpp:82-97 | Rows written one by one, none left out and none twice, are the rows of the map |
| `Takeover.PolledRowsShort` | src/sync/base_sync.cpp:90-95 | No row of a polled table of short rows is refused |
| `Takeover.SameFound` | src/kmodule/xt_recent-4.9.13.c:285-286 | The restored table knows exactly the addresses and ttls of the polled one |
| `Ring.FilledHolds` | src/kmodule/xt_recent-4.9.13.c:176-221 | The ring after a series of stamps is the end of the series |
| `Ring.FilledModuloHolds` | src/kmodule/xt_recent-3.16.43.c:171-213 | The same with the modulus |
| `Ring.HitsAreRecent` | src/kmodule/xt_recent-4.9.13.c:306-313 | Wrapped stamps in the window are the ticks that are recent in real time |
| `Ring.HitsAround256` | src/kmodule/xt_recent-4.9.13.c:211-219 | What the loop counts and the hidden slot make up the newest 256 |
| `Ring.SameHistorySameVisible` | src/kmodule/xt_recent-4.9.13.c:541-542 | What is shown is determined by the history |
| `Text.SplitJoin` | src/kmodule/xt_recent-4.9.13.c:625-681 | Splitting at separators undoes joining with them |
| `Text.ParseOfDotted` | src/kmodule/xt_recent-4.9.13.c:631 | Parsing a printed address gives it back |
| `Text.StoulOfDecimal` | src/xt_recent/xt_recent_proc.cpp:53-57 | Reading a printed number gives it back, with a blank before it or without |
| `XtRecentProc.SplitPrinted` | src/xt_recent/xt_recent_proc.cpp:53-57 | A printed stamp list splits into its numbers |
| `XtRecentSync.TableStopsAt` | src/xt_recent/xt_recent_proc.cpp:92-97 | One unreadable row fails the whole table |
| `Wire.SendableEncodes` | src/xt_recent/xt_recent_parser.cpp:86-92 | A canonical address never makes the serializer fail |
| `Wire.LittleEndianRoundTrip` | src/xt_recent/xt_recent_parser.cpp:100-106 | Bytes of a number that fits give the number back |
| `Codec.StampBytesNext` | src/xt_recent/xt_recent_parser.cpp:100-106 | One more stamp is eight more bytes |
| `Codec.GetStamps` | src/xt_recent/xt_recent_parser.cpp:60-66 | The loop reads the stamps in order |
| `Protocol.RunConcat` | src/sync/sync_master.cpp:87-276 | Turns of the loop make up runs of the protocol |
| `RecentNet.RoundUp` | src/kmodule/xt_recent-4.9.13.c:376-381 | The smallest power of two that is large enough |
| `RecentNet.LeaveServing` | src/kmodule/xt_recent-4.9.13.c:459-479 | A rule that leaves takes nothing from the others |
| `TableModel.Scan` | src/kmodule/xt_recent-4.9.13.c:128-147 | The walk returns a match if there is one in the chain |
| `WriteBack.WriteNew` | src/kmodule/xt_recent-4.9.13.c:650-682 | A row of a new address is one append to the table |
| `WriteBack.WriteNothing` | src/kmodule/xt_recent-4.9.13.c:572-682 | A row that is too long or without stamps changes nothing |
| `WriteBack.TouchAllOfNew` | src/kmodule/xt_recent-4.9.13.c:674-681 | Updating the newest entry leaves the LRU order as it is |

## Left out

- RecentNet.Net.Check: the tables of a net are kept as values, so that a table freed while its proc file is open is not captured; out-of-memory replies and a rule's address mask are left out as well.
- Takeover.TakeoverDecides: asks that no poll has missed a change, which `Polls.WatchedIsFaithful` derives from the bound on the stamps; that every entry of the polled table is IPv4, shows no zero stamp, has no more stamps than the backup's rings have slots (at most 128) and gives a command of at most 421 bytes; without these the chain loses stamps or rows as the lemmas named above say.
- Takeover.SkewedTakeover, like `Polls.TakesOverSkewed`: the same, and both counter values lie within about half the counter's range of every stamp.
- Polls.TakesOver: the same but for the missed changes, for which it asks the bound on the stamps between two polls. The master's rings, too, have at most 128 slots.
- Polls.FileIsRead: files with IPv4 lines only.
- LogModel.RunsAgree: runs in which every allocation succeeds and that span at most half the range of the tick counter.
- XtRecent.RecentTable.Reap: the word before the stamps is taken to depend on nothing but the entry.
- Protocol.AcceptViews: a node that connects has no other open connection; one that the master has not noticed to be gone is given to a stranger first (`Protocol.Lose`).
- XtRecentSync.Listener.Poll: in the protocol a poll and the replacement of its snapshot are one step. The queue is first in, first out, so that popping an action before the rest of its poll is queued comes to the same.
- XtRecent.RecentTable.Init: kmalloc failure appears in the value model only; the in-place methods always get memory.
- XtRecent.RecentTable.ProcWrite: the write buffer counts as terminated, and the file offset and copy failures are left out.
- Reassembly.ConnectionData.DrainConnection: stops and reports where the code would loop for ever or leave the buffer.
- SyncNodes.SyncMaster.RunOnce: other threads enqueue between turns; the protocol's steps also allow them to do so inside a drain.
- SyncNodes.SyncMaster.SendTo: a closed connection takes nothing; that its number may meanwhile name another file is not captured.
- `Codec.GetIpAddressV4`: std::stoi's failure on numbers beyond an int is not captured.
- IPv6 rows: user space sends no address bytes for them; the kernel model has IPv6 keys, the chain to the backup does not.
- `last_seen`, which the row parser reads, nothing compares and the wire does not carry.
- The farm request for a full synchronisation, which the load balancer answers with ordinary actions.
- Uninitialised fields of a clear request are sent as zeros in the model.
- Partial sends and send failures before a disconnect, sockets, epoll, directory listing, sleeps and logging.
- The pause between a reconnect and the clearing of sessions, in which nothing is applied: both are one step.
- Stopping and restarting the listeners, and the master's clearing of all sessions while the http listener is stopped.
- Control commands, the argument parser and the command packet codec.
- Writing sessions back to the load balancer, which only sends one action for each session.
- RE2: rows have the printed shape.
- Network namespaces, locks and the 3.2.93 module, whose ring is that of 3.16.43.
