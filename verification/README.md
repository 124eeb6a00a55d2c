# Verification of the middlebox session protocol

A client (128.112.93.107) talks TCP to a server (128.112.93.108) through an old
middlebox (.106). An update takes the connection over to a new middlebox (.109)
while it is running. This project models the four parts of the repository that
have to work together for that, and proves what each promises and what they
promise together.

**The hash table** (`Bits`, `Buckets`, `LoadBound`, `HashLoads`, `StrictBound`,
`ListSort`, `Relink`, `UtHash`, `Fsck`, `FlowHash`). uthash threads every element on two doubly linked
lists. `UtHash.Table` and `Buckets.Bucket` are classes over element objects whose
pointers are overwritten in place, as the macros do. Each method is proved
against the abstract contents, and its counters against the state machine of
`LoadBound`, whose runs give the bound on chain lengths. `HashLoads` gives the
counters of a table as a function of the hash values added to it; `StrictBound`
says when the bound is one less, and fills a table for which it is not. `Relink` holds the loops of the in-place merge sort, proved
equal to the sort on sequences of `ListSort`, which is proved a stable sort, and
`UtHash.Table.Sort` says so of the table. `Fsck` is the author's own consistency check.

**The kernel rules** (`Rules`, `KernelTable`, `Kernels`). Three kernel modules
look up rewrite rules in such tables. `Kernels` has their init and exit loops,
netlink commands and hooks as methods; `Rules` says what they do as functions
from rule maps and headers, and what that comes to after any history of commands
for every packet, of the connection or not.

**The update protocol** as transition systems over a network that loses,
duplicates and reorders. `Emulator` is `serverUDP.c` with `clientUDP.c`:
per-flow `acked` flags and a bounded retry loop. `Agent` is `MiddleboxAgent.c`
with `updateNotify.c`: handler threads that share one `update_ack` under a
mutex, one step per action between two scheduling points, together with the two
endpoint kernels and the connection's packets in flight. A network is the log of
everything sent: any of it can be received at any time, any number of times, or
never. `EmulatorSafety`, `EmulatorAccepts`, `AckPrefix`, `AckVouches`,
`MessageBound`, `AgentSafety`, `AgentAccepts`, `AgentMutex` and `Migration` prove what
every run keeps;
`EmulatorCompletes` and `MigrationCompletes` build whole runs for every hop list,
with `AgentRuns` for one thread's actions; `MutexTimeout` has the runs with a
timeout.
The programs themselves are methods on buffers and tables in `Wire`, `ServerUdp`
and `UserAgent`; their dispatch, and the turns of their loops, are proved to be
the steps of the transition systems.

**The Internet checksum** (`Checksum`), in the two forms of the raw-socket
programs, against the definition of section 1 of RFC 1071.

What the transition systems assume: participants are honest, a sequence number
names one hop list (`plan` in `Agent`), the initiator sends to the first hop of
its list, each forwarding handler has a socket of its own while clients may use
a port again, and the agents never send RESET. Sequence numbers may be any
integers. A netlink command is one step. The middlebox module hard-codes .106 as
the box's own address (kernelAgent/MiddleboxKernel/translator.c:88-106);
`Migration` assumes the same module at .109 with its own address in that place.

What turned out not to hold without a condition, each with the condition proved
necessary as well as sufficient:

- The emulator's client sends its ACK whether or not its check of the SYN-ACK
  succeeds (emulator_code/clientUDP.c:129-145). Its ACK vouches for the hops
  unless another client with a positive number is on its port.
- Migration is loss-free exactly when every update that can be answered visits
  both endpoints or neither, and every delivered packet shows its sender's
  addresses and ports in exactly the same plans.
- The mutex of the agent is held by whoever unlocks it as long as no handler
  leaves by timeout; a handler that does never holds the lock it unlocks. Runs
  show another handler losing it that way, and one accepted ACK releasing two
  handlers.
- Chains stay within 10 * (expand_mult + 1) items. With < for <= the bound fails
  at a bucket exactly when the ideal chain length is 10 and the bucket holds 10
  items with expand_mult 0, and a table gets there by adding 1217 different keys.

## Model

| member | source | states |
|---|---|---|
| `Bits.MaskIsRemainder` | emulator_code/uthash.h:207-210 | masking a hash with num_buckets - 1 is the remainder modulo a power of two, for every hash and every power |
| `Bits.IdealChainIsCeil` | emulator_code/uthash.h:665-689 | the shift-and-mask expression is the ceiling of num_items over the doubled bucket count |
| `Buckets.Bucket.PushFront` | emulator_code/uthash.h:621-627 | an item is linked in at the head of its doubly linked chain; count follows |
| `Buckets.Bucket.FindIn` | emulator_code/uthash.h:607-618 | walking a chain finds an element with the key, or null exactly when the chain has none |
| `Buckets.Bucket.Remove` | emulator_code/uthash.h:635-645 | unlinking any position leaves the rest of the chain, in order, correctly linked both ways |
| `Buckets.MoveTo` | emulator_code/uthash.h:695-709 | one turn of redistribution: the item moves to its new bucket; nonideal_items still tells the excess, and every expand_mult is still the quotient of the bucket's count by the ideal length, or 0 within that length |
| `Buckets.MoveChain` | emulator_code/uthash.h:693-709 | the inner loop moves a whole old chain while following hh_next pointers it has already overwritten elsewhere |
| `Buckets.Redistribute` | emulator_code/uthash.h:691-710 | all old chains end up in the new buckets: same elements, each in the bucket of its hash, chains linked, nonideal_items the sum of the excesses, every expand_mult the quotient or 0 |
| `UtHash.Table.Find` | emulator_code/uthash.h:103-113 | null when no element of the table has the key, otherwise an element of the table with that key |
| `UtHash.Table.MakeTable` | emulator_code/uthash.h:150-167 | a first element gets 32 empty buckets and zero counters |
| `UtHash.Table.Thread` | emulator_code/uthash.h:182-199 | the add's application-order half: appended at the tail, on an empty or a live table |
| `UtHash.Table.AddToBkt` | emulator_code/uthash.h:621-632 | the add's bucket half, with the expansion exactly when the bucket reaches its threshold and noexpand is unset; the load bound's invariant survives |
| `UtHash.Table.Add` | emulator_code/uthash.h:182-205 | the element is appended to the application order, the whole structure stays valid, and the counters take one add step of LoadBound in the bucket of the key's hash, expanding exactly when that bucket reaches 10 * (expand_mult + 1) items and noexpand is 0 |
| `UtHash.Table.Delete` | emulator_code/uthash.h:224-258 | exactly that element leaves both lists, the last one taking the table with it; the counters take one delete step |
| `UtHash.Table.UnlinkOrder` | emulator_code/uthash.h:235-252 | head, tail and both neighbours are repaired for a first, last or inner element |
| `UtHash.Table.ExpandBuckets` | emulator_code/uthash.h:676-722 | expansion keeps the same elements and hashes in twice as many buckets and divides every old bucket's items between it and its twin; ideal_chain_maxlen is the ceiling of items over buckets, an expand_mult is the quotient m with m * ideal <= count < (m + 1) * ideal or 0 for a bucket within the ideal length, every item not within it is counted in nonideal_items, and ineff_expands and noexpand judge by half the items; no division by zero |
| `LoadBound.ExpandMeans` | emulator_code/uthash.h:676-722 | the same of LoadBound's expansion, for any counts |
| `UtHash.ChainSplits` | emulator_code/uthash.h:691-710 | the items of old bucket b are exactly those of new buckets b and b + n, which have none in common, and so are the counts |
| `UtHash.Table.Clear` | emulator_code/uthash.h:876-884 | iterating with deletion visits every element once and leaves an empty table |
| `UtHash.FindRefines` | emulator_code/uthash.h:103-113 | on distinct keys a lookup answers as a finite map does |
| `UtHash.AddRefines` | emulator_code/uthash.h:182-205 | adding a new key is adding it to the map |
| `UtHash.DeleteRefines` | emulator_code/uthash.h:224-258 | deleting an element is removing its key from the map |
| `UtHash.SortRefines` | emulator_code/uthash.h:729-814 | sorting does not change the map, so no lookup answer changes |
| `LoadBound.TriggerIdeal` | emulator_code/uthash.h:621-689 | at a trigger the table holds at most 19 items per bucket, so the next ideal chain length is between 1 and 10 |
| `LoadBound.ExpandKeeps` | emulator_code/uthash.h:676-722 | an expansion re-establishes the caps whatever way the items fall into the new buckets |
| `LoadBound.StepKeepsInv` | emulator_code/uthash.h:621-722 | every add, expanding add and delete keeps the invariant on counts, expand_mults and expansion statistics |
| `LoadBound.ChainsStayBounded` | emulator_code/uthash.h:621-722 | over every run of adds and deletes: while noexpand is 0 each chain has at most 10 * (expand_mult + 1) items, the expand_mults sum to at most num_buckets, ideal_chain_maxlen is at most 10 |
| `UtHash.ChainBound` | emulator_code/uthash.h:621-722 | the same bound on the chains of every valid table |
| `StrictBound.ExpansionIsStrict` | emulator_code/uthash.h:691-710 | an expansion leaves fewer than 10 * (expand_mult + 1) items in every bucket exactly when it is not the case that the ideal chain length is 10 and some bucket gets 10 items |
| `StrictBound.StrictExactly` | emulator_code/uthash.h:621-722 | in every run, while noexpand is 0, the bound with < fails at a bucket exactly when the ideal chain length is 10, its expand_mult is 0 and it holds 10 items |
| `HashLoads.AddKeys` | emulator_code/uthash.h:182-205 | adding any keys in turn to a new table with any hash gives the counters that `Adds` computes from the hash values alone |
| `HashLoads.TableOccupancy` | emulator_code/uthash.h:621-627 | in every valid table, bucket b's count is the number of elements whose key hashes into b |
| `HashLoads.OccupancySplits` | emulator_code/uthash.h:691-710 | doubling the buckets divides the hash values of every bucket between it and its twin |
| `HashLoads.AddsRun` | emulator_code/uthash.h:621-722 | those counters are reached by a run of LoadBound, for any hash values |
| `StrictBound.StrictFails` | emulator_code/uthash.h:621-722 | a run of adds into that corner, through two expansions: the counters for 1217 hash values |
| `StrictBound.StrictFailsInTable` | emulator_code/uthash.h:621-722 | a valid table with the identity for its hash, to which those 1217 keys, all different, have been added: noexpand is 0 and bucket 1, with expand_mult 0, has a chain of ten |
| `LoadBound.NoexpandAfterTwo` | emulator_code/uthash.h:715-720 | in every run noexpand is set only after two consecutive ineffective expansions, nothing between or since having expanded or emptied the table |
| `ListSort.SortIsStableSort` | emulator_code/uthash.h:729-814 | for any total preorder on the elements of the list, which may be objects, the passes compute a sorted permutation in which ties keep their order |
| `ListSort.MergeStable` | emulator_code/uthash.h:755-796 | merging two sorted runs keeps ties in order, the first run's before the second's |
| `ListSort.PassDoubles` | emulator_code/uthash.h:743-812 | a pass turns sorted runs of k into sorted runs of 2k |
| `Relink.Select` | emulator_code/uthash.h:756-787 | the next element is the first run's head unless that run is spent or the second run's head is strictly smaller; its run's size and cursor move |
| `Relink.MergeRuns` | emulator_code/uthash.h:755-799 | the in-place merge loop relinks prev and next into exactly the merge of the two runs |
| `Relink.MergePass` | emulator_code/uthash.h:737-804 | one in-place pass over the list equals the pass on sequences, counting its merges |
| `UtHash.Table.Sort` | emulator_code/uthash.h:729-814 | for a comparison of keys and contents: the same elements; when it is a total preorder on what they hold, the relinked list is in order and elements that tie come as they came before; head, tail, next and prev are consistent, nothing of the bucket chains is written, the loops terminate |
| `UtHash.SortMeans` | emulator_code/uthash.h:729-814 | what the passes compute on elements is a stable sort by their contents |
| `Fsck.Fsck` | emulator_code/uthash.h:287-337 | the author's own check accepts a table it can walk exactly when all backward pointers and all counts are right |
| `Fsck.ValidPasses` | emulator_code/uthash.h:287-337 | every valid table in use passes that check |
| `FlowHash.FlowRecords.FindItem` | emulator_code/flowhash.h:26-37 | finds the flow's record exactly when there is one |
| `FlowHash.FlowRecords.AddItem` | emulator_code/flowhash.h:39-62 | inserts or overwrites the sequence number and clears acked in both cases; other flows keep theirs |
| `FlowHash.FlowRecords.ClearHash` | emulator_code/flowhash.h:65-71 | no record is left |
| `KernelTable.AnyFindAgrees` | kernelAgent/clientKernel/netlink_connection.h:77-88 | with several records of one key that agree, a lookup's answer does not depend on which one it meets |
| `KernelTable.RuleTable.Insert` | kernelAgent/clientKernel/netlink_connection.h:80-87 | an unchecked insertion of an agreeing duplicate keeps lookups equal to the map's |
| `KernelTable.RuleTable.AddHash` | kernelAgent/serverKernel/netlink_connection.h:8-22 | an existing record wins |
| `KernelTable.RuleTable.DeleteHash` | kernelAgent/clientKernel/netlink_connection.h:8-19 | one record of the key is freed: its rule goes with the last one and stays with the others, other keys keep theirs |
| `KernelTable.RuleTable.Unload` | kernelAgent/clientKernel/translator.c:125-138 | the exit loop frees every record exactly once and counts them |
| `Kernels.ClientKernel.constructor` | kernelAgent/clientKernel/translator.c:82-103 | the client's two rules at load time, before any command |
| `Kernels.ClientKernel.NetlinkAgent` | kernelAgent/clientKernel/netlink_connection.h:38-104 | the rule map after SYN, ACK, RESET or anything else, through a table that collects duplicate records; the command joins the history that the hooks are stated over |
| `Kernels.ClientKernel.ResetRules` | kernelAgent/clientKernel/netlink_connection.h:90-104 | the rule maps that the four separately locked steps of RESET leave, one after the other |
| `Kernels.ClientKernel.OutgoingBegin` | kernelAgent/clientKernel/out.h:139-181 | after any commands: a TCP packet to port 5001 of the server goes to the new box if an ACK has come since the last RESET and to the old box otherwise; every other packet is left alone |
| `Kernels.ClientKernel.IncomingBegin` | kernelAgent/clientKernel/in.h:61-100 | after any commands: a TCP packet from port 5001 of the old box, or of the new one once a SYN has come, is shown as the server's; every other packet is left alone |
| `Kernels.ServerKernel.constructor` | kernelAgent/serverKernel/translator.c:135-155 | the server's two rules at load time |
| `Kernels.ServerKernel.NetlinkAgent` | kernelAgent/serverKernel/netlink_connection.h:24-88 | the rule map after SYN, ACK, RESET or anything else; the command joins the history |
| `Kernels.ServerKernel.OutgoingBegin` | kernelAgent/serverKernel/out.h:135-175 | after any commands: a TCP packet from port 5001 to the client goes to the new box once an ACK has come and to the old box before; every other packet is left alone |
| `Kernels.ServerKernel.IncomingBegin` | kernelAgent/serverKernel/in.h:61-95 | after any commands: a TCP packet to port 5001 from the old box, or from the new one once a SYN has come, is shown as the client's; every other packet is left alone |
| `Kernels.MiddleboxKernel.constructor` | kernelAgent/MiddleboxKernel/translator.c:88-106 | the middlebox's two rules, for a box at any address |
| `Kernels.MiddleboxKernel.IncomingChangeBegin` | kernelAgent/MiddleboxKernel/in.h:25-98 | before routing: the destination becomes the other endpoint for TCP packets of either endpoint that name the server's port on the server's side, with the source-port lookup first; every other packet is left alone |
| `Kernels.MiddleboxKernel.OutgoingChangeBegin` | kernelAgent/MiddleboxKernel/out.h:58-126 | after routing: the source of exactly those packets becomes the box, with the destination-port lookup first |
| `Kernels.MiddleboxKernel.Forward` | kernelAgent/MiddleboxKernel/in.h:25-98 | a packet's whole way through the box: both rewrites for those packets, none for any other |
| `Rules.ClientHooks` | kernelAgent/clientKernel/out.h:139-181 | for every sequence of commands and every header, what both client hooks do to it, by the header's own fields |
| `Rules.ServerHooks` | kernelAgent/serverKernel/out.h:135-175 | the same at the server, where no RESET takes an ACK back |
| `Rules.BoxHooks` | kernelAgent/MiddleboxKernel/in.h:43-82 | the same of both hooks of a box, and of the two together, for every own address |
| `Rules.BoxRelays` | kernelAgent/MiddleboxKernel/in.h:43-82 | a box turns what is addressed to it into a packet from itself to the other endpoint, for every client port, also where the two lookups could be confused |
| `Rules.ClientShowsPeer` | kernelAgent/clientKernel/in.h:78-97 | the client's application sees the server exactly when the accept rule for the box is present with the server's address |
| `Rules.ServerShowsPeer` | kernelAgent/serverKernel/in.h:73-92 | the same at the server |
| `Rules.AckRedirects` | kernelAgent/clientKernel/netlink_connection.h:58-75 | whatever the table was, an ACK at either endpoint sends the connection to the new box if it has an outgoing rule, and makes none |
| `Rules.ResetRestores` | kernelAgent/clientKernel/netlink_connection.h:90-104 | whatever the table was, a RESET at the client sends the connection through the old box and shows that box as the server, and leaves the accept rule for the new box as it was |
| `Rules.ServerResetRestores` | kernelAgent/serverKernel/netlink_connection.h:82-88 | at the server it does so only when the outgoing rule is missing |
| `Rules.ResetWindow` | kernelAgent/clientKernel/netlink_connection.h:90-104 | in the map after the first of those steps the detour is skipped, in the one after the third the old box's address shows through, and the last one is what RESET promises |
| `Rules.ServerResetKeeps` | kernelAgent/serverKernel/netlink_connection.h:82-88 | after any command the server's RESET changes nothing; it does not undo an ACK |
| `Wire.SyncRoundTrip` | UserAgent/updateNotify.c:38-69 | header and hop list read back from a sync message are those written |
| `Wire.SyncLayout` | UserAgent/updateNotify.c:38-69 | at which offset of a sync message each header field, each address and the terminator is, with the low byte first |
| `Wire.SyncPacket` | UserAgent/updateNotify.c:38-69 | the buffer filled in place, on the caller's cleared memory, is header, list and terminator; the length is 24 + 4k |
| `Wire.ForwardMessage` | UserAgent/MiddleboxAgent.c:208-224 | the forwarded message is the received one without its first address and with the action overwritten, and goes to the second address |
| `Wire.StripDropsHead` | UserAgent/MiddleboxAgent.c:208-224 | stripping a sync message gives the sync message of the rest of the list, addressed to the next hop |
| `Wire.HopMessage` | emulator_code/serverUDP.c:124-140 | position i holds the original header, the list from i and the terminator, 24 + 4(k - i) bytes, and forwards exactly when i is not the last |
| `Wire.NoMessageAfterLast` | emulator_code/serverUDP.c:213-217 | nothing is forwarded past the last hop |
| `Wire.VisitsTheList` | emulator_code/serverUDP.c:124-140 | the hops a message is forwarded to are the rest of its list, in order |
| `Wire.BackResponse` | UserAgent/MiddleboxAgent.c:295-300 | the last hop's answer, built in place |
| `Wire.ResponseHeader` | UserAgent/MiddleboxAgent.c:295-300 | that answer carries the sender's own header with action 5 |
| `Wire.SendBackResponse` | emulator_code/serverUDP.c:68-74 | the emulator's answer: action 2 and the next hash port over the address |
| `Wire.SettingAck` | UserAgent/MiddleboxAgent.c:169-189 | the ACK names the one fixed flow, 10.0.0.1 to 10.0.0.5 |
| `Wire.AckNamesFlow` | UserAgent/MiddleboxAgent.c:169-189 | an ACK finds the record of its SYN exactly when the SYN was for that flow |
| `ServerUdp.DispatchIsStep` | emulator_code/serverUDP.c:259-309 | the dispatch on flow records is the step of the transition system, a handler being spawned exactly when the system spawns one |
| `ServerUdp.Server.Dispatch` | emulator_code/serverUDP.c:256-309 | a SYN with any number above the record, or without one, is recorded with acked cleared and starts a handler; an ACK sets acked exactly on equal numbers; everything else changes nothing |
| `ServerUdp.Server.KeysApart` | emulator_code/serverUDP.c:259-266 | clients at different addresses or ports have different flow records |
| `ServerUdp.Retry` | emulator_code/serverUDP.c:76-102 | the loop ends at the first acknowledged lookup, if that is one of the first 1000, and otherwise at turn 1000; it has sent in turns 1, 41, 81 and so on, so exactly 25 times when never acknowledged |
| `ServerUdp.TurnIsSteps` | emulator_code/serverUDP.c:160-190 | a turn of that loop is the handler's send and check steps of the transition system: what is sent, the count, and how the loop is left, when acknowledged or in turn 1000, the ACK included |
| `ServerUdp.Server.SendBack` | emulator_code/serverUDP.c:52-107 | every sent answer is the same message with the hash port of this call, and the next call gets the next one |
| `ServerUdp.PortsDiffer` | emulator_code/serverUDP.c:74 | the hash ports of any 2^32 calls in a row are different, wrap-around included |
| `ServerUdp.Server.SendForward` | emulator_code/serverUDP.c:111-195 | SYN to the next hop, its answer relayed unchanged, and an ACK with the answer's number exactly when acknowledged |
| `EmulatorSafety.StepKeepsInv` | emulator_code/serverUDP.c:52-317 | every step of client, main and handlers keeps every datagram and handler in its place of its update's hop list |
| `EmulatorSafety.SynAckVouches` | emulator_code/serverUDP.c:140-163 | while a SYN-ACK is in the network every hop of its list has recorded its number or a newer one; it goes to its own update's client, or answers the number sent from the hop's socket it is addressed to |
| `AckPrefix.PrefixGrows` | emulator_code/serverUDP.c:173-181 | a hop that accepted an ACK recent enough implies the same of every hop before it |
| `AckPrefix.StepKeepsAcks` | emulator_code/serverUDP.c:173-181 | every step keeps acknowledgement a prefix; rests on acked being cleared with a new number |
| `AckPrefix.AckedPrefix` | emulator_code/serverUDP.c:173-181 | an ACK leaves hop i only after hop i and every hop before it accepted an ACK numbered at least as high |
| `AckVouches.AckVouches` | emulator_code/serverUDP.c:298-301 | a hop's ACK exists only when every hop of the list has recorded the number; so does a client's, unless another client with a positive number is on its port |
| `AckVouches.OwnPortOwnAnswer` | emulator_code/clientUDP.c:123-145 | a client whose port no other client with a positive number uses is released by its own SYN-ACK only |
| `EmulatorCompletes.SharedPortAcksEarly` | emulator_code/clientUDP.c:129-145 | the client's check falls through to the send: for every port, numbers and lists, another client with a positive number on the port releases it before any hop has heard of its update |
| `MessageBound.OneHandler` | emulator_code/serverUDP.c:271-295 | an update has at most one handler at each place |
| `MessageBound.AcceptedOnce` | emulator_code/serverUDP.c:271-295 | per flow the accepted numbers rise strictly, so each spawns at most one handler |
| `MessageBound.PlaceBound` | emulator_code/serverUDP.c:76-102 | at most 27 datagrams of an update are sent from the place of a forwarding hop, 25 from the last hop's |
| `MessageBound.UpdateIsBounded` | emulator_code/serverUDP.c:76-102 | one update over k hops makes all participants send at most 27k datagrams, however the network duplicates |
| `EmulatorCompletes.UpdateCompletes` | emulator_code/serverUDP.c:52-317 | for every port, positive number and list and every turn from 1 to 1000, a run in which every hop is acknowledged in that turn, with the SYNs, the ACKs and exactly the answers of that many turns sent |
| `EmulatorCompletes.BoundAttained` | emulator_code/serverUDP.c:76-102 | the bound of 27k datagrams is attained over every list |
| `EmulatorAccepts.AnythingArrives` | emulator_code/serverUDP.c:256-309 | any datagram ever sent can be received, in any state, wherever somebody waits for it |
| `EmulatorAccepts.SynAccepted` | emulator_code/serverUDP.c:269-295 | a received SYN is recorded and starts a handler exactly when its number is above the flow's record, or there is none |
| `EmulatorAccepts.AckAccepted` | emulator_code/serverUDP.c:298-309 | a received ACK changes the record exactly when it carries the recorded number |
| `EmulatorAccepts.ReceivedIsRecorded` | emulator_code/serverUDP.c:269-295 | in every run, from a SYN's reception on the flow's record is at least its number |
| `EmulatorAccepts.AckedForItsNumber` | emulator_code/serverUDP.c:271-301 | in every run a record is acknowledged exactly when an ACK has been accepted for its own number, never by one for an older number |
| `UserAgent.DispatchIsStep` | UserAgent/MiddleboxAgent.c:431-485 | main's step of the transition system on flow records: a thread for a number above the record, the ACK path exactly on equal numbers, a crash on a missing record |
| `UserAgent.MiddleboxAgent.Dispatch` | UserAgent/MiddleboxAgent.c:412-485 | a SYN above the record, or without one, is recorded, told to the kernel and starts a handler; an ACK sets update_ack and is told exactly on equal numbers; nothing else is changed or told |
| `UserAgent.MiddleboxAgent.RelayOrRelease` | UserAgent/MiddleboxAgent.c:249-269 | in the lock: relay the answer as it came, or build the ACK with the answer's number and leave |
| `UserAgent.HandleUpdate` | UserAgent/MiddleboxAgent.c:337-355 | a handler ignores a number that is not positive, forwards the message of the rest of the list to the next hop while more than one address is left, and answers otherwise |
| `UserAgent.AnswerLoop` | UserAgent/MiddleboxAgent.c:303-327 | the loop ends at the first turn that finds update_ack set, if that is one of the first 1000, and otherwise at turn 1000; it has answered in every turn before, exactly 1000 times on timeout |
| `UserAgent.MiddleboxAgent.UpdateBack` | UserAgent/MiddleboxAgent.c:280-334 | all those answers are the one built from the request, and update_ack is cleared however the loop was left |
| `UserAgent.TurnIsActions` | UserAgent/MiddleboxAgent.c:305-327 | a turn of that loop is the thread's actions of the transition system, whatever others do to the hop in between; it is the last one when acknowledged or the thousandth |
| `UserAgent.RelayIsAction` | UserAgent/MiddleboxAgent.c:249-269 | whatever RelayOrRelease may return is what the thread does in its deciding action: it leaves exactly when the thread does, and the bytes are those of the datagram the thread sends, the answer it received or the ACK with that answer's number |
| `UserAgent.AnswerPasses` | UserAgent/updateNotify.c:128-132 | for a hop list of any length, the answer to what the last hop receives of the initiator's message passes the initiator's check of action and number |
| `AgentSafety.StepKeepsInv` | UserAgent/MiddleboxAgent.c:193-485 | every step of initiators, mains and handlers keeps messages, handlers and records consistent with the hop lists |
| `AgentSafety.AckFollowsSweep` | UserAgent/MiddleboxAgent.c:249-269 | an ACK for s exists only if s is positive, its list names no hop twice, and every hop on it has accepted s and told its kernel, whoever's update_ack released the hops |
| `AgentSafety.SynAckFollowsSweep` | UserAgent/MiddleboxAgent.c:305-327 | the same of a SYN-ACK, which also carries the number sent from the socket it is addressed to |
| `AgentSafety.AckFindsRecord` | UserAgent/MiddleboxAgent.c:467-468 | an ACK arriving at a hop finds a record at least as new, so the unchecked access is defined in every run |
| `AgentSafety.AcceptedOnce` | UserAgent/MiddleboxAgent.c:428-456 | a hop accepts each number at most once, and accepted numbers rise |
| `AgentAccepts.AnythingArrives` | UserAgent/MiddleboxAgent.c:412-485 | any message ever sent can be received, in any state, wherever somebody waits for it |
| `AgentAccepts.SynAccepted` | UserAgent/MiddleboxAgent.c:428-456 | a received SYN is recorded, starts a handler and is told to an endpoint's kernel exactly when its number is above the hop's record, or there is none |
| `AgentAccepts.AckAccepted` | UserAgent/MiddleboxAgent.c:467-485 | in every run a received ACK finds a record at least as new, takes main out of its idle state exactly when it carries the recorded number, and with any other changes nothing |
| `AgentAccepts.MainServesRecord` | UserAgent/MiddleboxAgent.c:467-485 | in every run, from an ACK's acceptance to the kernel's being told of it, main works for exactly the number its hop has recorded |
| `AgentAccepts.ReceivedIsRecorded` | UserAgent/MiddleboxAgent.c:428-456 | in every run, from a SYN's reception on the hop's record is at least its number |
| `AgentMutex.StepKeepsLocks` | UserAgent/MiddleboxAgent.c:249-275 | every step keeps lock owner, critical sections and the budget of releases |
| `AgentMutex.UnlockedByHolder` | UserAgent/MiddleboxAgent.c:255-275 | without timeout exits every unlock is by the holder, and critical sections exclude one another, for any number of threads |
| `AgentMutex.ReleasesAreAcknowledged` | UserAgent/MiddleboxAgent.c:255-275 | without timeout exits the handlers that left as acknowledged are no more than the ACKs accepted |
| `AgentMutex.TimedOutNeverHolds` | UserAgent/MiddleboxAgent.c:321-332 | a handler that timed out never holds the lock it then unlocks |
| `MutexTimeout.TimeoutBreaksMutex` | UserAgent/MiddleboxAgent.c:321-332 | a run in which such an unlock frees the lock while another handler is inside its section |
| `MutexTimeout.OneAckTwoReleases` | UserAgent/MiddleboxAgent.c:321-332 | after a timeout exit the count fails too: a run in which update_ack is set once and two handlers leave as acknowledged |
| `Migration.SynKeepsKernels` | UserAgent/MiddleboxAgent.c:438-448 | an accepted SYN installs the accept rule and breaks nothing |
| `Migration.MainKeepsKernels` | UserAgent/MiddleboxAgent.c:470-479 | a kernel is told of an ACK only when the other endpoint already accepts from the new box |
| `Migration.LossFree` | UserAgent/MiddleboxAgent.c:431-485 | when every update that can be answered visits both endpoints or neither: in every reachable state, if an endpoint's outgoing rule points at the new box, the other endpoint restores the sender's address on what comes from there |
| `MigrationCompletes.LossFreeExactly` | UserAgent/MiddleboxAgent.c:431-485 | that holds in all runs exactly when every update that can be answered (positive number, no hop listed twice) visits both endpoints or neither |
| `Migration.Transparent` | kernelAgent/MiddleboxKernel/in.h:43-82 | under the same condition every delivered packet shows the sender's original addresses and ports, both directions, all ports, all interleavings |
| `MigrationCompletes.TransparentExactly` | kernelAgent/MiddleboxKernel/in.h:43-82 | that holds in all runs exactly when every update that can be answered visits both endpoints or neither |
| `Migration.OtherTraffic` | kernelAgent/clientKernel/out.h:139-181 | in every run, whatever updates are under way, the endpoints' hooks leave alone every packet that does not name the connection's address and port |
| `MigrationCompletes.UpdateCompletes` | UserAgent/MiddleboxAgent.c:193-485 | for every number that can be answered, a run in which every hop of its list tells its kernel of the SYN and of the ACK |
| `MigrationCompletes.OneSidedUpdateLoses` | UserAgent/updateNotify.c:42 | every such update that visits exactly one endpoint has a run that is not loss-free |
| `MigrationCompletes.OneSidedUpdateShows` | UserAgent/updateNotify.c:42 | and a run that delivers a packet with the box's address in place of its sender's |
| `MigrationCompletes.MigrationHappens` | UserAgent/MiddleboxAgent.c:431-485 | every such update that visits both endpoints has a run in which both switch and a packet is delivered by way of the new box |
| `Checksum.DeferredCarries` | socket/RECEIVE_RAW.cc:29-42 | the loop form's deferred carries give the ones'-complement sum of section 1 of RFC 1071 |
| `Checksum.CompChksum` | socket/RECEIVE_RAW.cc:29-42 | the complement of the ones'-complement sum of the words read, one word more on an odd length |
| `Checksum.Csum` | socket/RECEIVE_RAW.cc:44-52 | the complement of the sum folded twice |
| `Checksum.CsumWhen` | socket/RECEIVE_RAW.cc:44-52 | the two forms agree exactly when two folds leave no carry |
| `Checksum.BothChecksums` | socket/RECEIVE_RAW.cc:29-52 | both forms on one buffer, which they may cover to its end: equal exactly when two folds leave no carry, and always up to 65538 words |
| `Checksum.CsumIsChecksum` | socket/RAW_SOCKET.cc:24-32 | they agree on all buffers of up to 65538 words |
| `Checksum.CsumFailsBeyond` | socket/RECEIVE_RAW.cc:44-52 | a buffer of 65539 words on which they differ |
| `Checksum.ChecksumPermuted` | socket/RECEIVE_RAW.cc:29-52 | both are invariant under permuting the words |
| `Checksum.ChecksumVerifies` | socket/RECEIVE_RAW.cc:29-42 | stored in a word that was zero, the checksum makes the sum all ones |
| `Checksum.CsumVerifies` | socket/RECEIVE_RAW.cc:44-52 | and csum over the whole is then zero |

## Left out

- Sockets, netlink transport, polling, sleeping, time measurement and printing: receiving, sending and telling the kernel are steps or method results.
- The order of concurrent unlocked accesses to the user-space hash tables, and the use of a rule after the read lock is released: lookups are atomic.
- The handlers' threads inside `ServerUdp` and `UserAgent` methods: what other threads do meanwhile is the parameter `seen`; interleavings are in `Emulator` and `Agent`.
- Handle pointer arithmetic (`hho`), key length comparison, bloom filter, hash function internals, HASH_REPLACE and HASH_SELECT: the hash is any function of the key, and a table compares whole keys.
- Allocation failure and 32-bit wrap-around of num_buckets, num_items and sequence numbers: counters are unbounded.
- `Emulator` leaves the hash port, the action and addresses of a datagram's header, and keepalives out: no decision of the protocol reads them. Their bytes are in `Wire`.
- `Wire.BackResponse`: only for 28-byte messages, the only length for which the code stays inside its buffers and reaches this branch.
- `AgentMutex.UnlockedByHolder`: not for hops with a timeout exit, where it is false (`MutexTimeout`).
- `AgentMutex.ReleasesAreAcknowledged`: not for hops with a timeout exit either, for the same reason.
- `Migration.LossFree`: not with RESET commands; `Rules.ResetWindow` shows the states they pass through.
- Liveness: SYNs and ACKs are not retransmitted, so completion is shown for particular runs only.
- Kernel checksum updates (csum_replace4, inet_proto_csum_replace4), sk_buff mechanics and the unused header_rewrite functions: foreign or dead code.
- udp_sum_calc and the word count that the raw-socket mains pass to csum.
- The second copies of uthash and of flowhash.h: the same algorithm.
