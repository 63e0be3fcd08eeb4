# Verified model of the dataplane's control and packet-handling core

This project models the parts of the dataplane whose behaviour depends on long sequences of
calls, callbacks and answers, and proves what holds over all of them. Code that works by
updating fields and buffers is modelled by classes and methods, each proved against a
specification function; the properties are then lemmas about those functions and about whole runs.

| modules | what they model |
|---|---|
| `Bits`, `BpfMachine`, `BpfFilter`, `BpfValidate`, `BpfPrograms`, `MbufChain` | the packet filter: interpreter, validator, whole filters, reads across segments |
| `FalContract`, `FalGroups`, `FalMroute`, `FalRouteGraph`, `FalRoutes`, `FalRuns` | programming multicast routes into a plugin and the promises made to it |
| `EventList` | the reference-counted event list and its poll snapshot |
| `PortRequests`, `ControlLoop`, `ControlRuns`, `Controller` | port requests and the two connection machines of the main thread |
| `Resync`, `CfgIfList`, `CfgIfRuns` | snapshot and subscription; commands cached for interfaces that do not exist yet |
| `Arp` | address resolution beside updates, deletions and timers |
| `Ecmp`, `Backends`, `Capture`, `CStrings`, `CommandLine`, `Options` | path choice, backend choice, capture framing and filtering, command lines |

## Main results

- On every program, valid or not, the interpreter ends as a reference that gives each field of an
  instruction one meaning; a program is accepted exactly when it is empty, or each instruction is sound
  and the last returns, and then it never leaves its code or its scratch memory, never divides by zero,
  and returns within its length. It stays in the bytes it was given **if and only if** no more than those
  were declared readable. Arithmetic is stated on bits and bounds, and whole filters on the bytes of the
  packets they accept; the validator refuses no instruction that cannot get stuck, except a jump whose
  bad side is never taken.
- Over any calls about any multicast routes, each with its own key, and any answers of the plugin, every
  promise of the plugin interface is kept **if and only if** the plugin never took a new output group for
  an entry and then refused the reverse-path group that goes with it; and then the live objects are
  exactly those the routes record, each entry under its route's key. The promise about keys is kept in
  any case. Making or updating a route succeeds **if and only if** the plugin refuses nothing, there is
  memory, the incoming interface is known to the plugin and the family is one of the two.
- Over any registrations, removals and polls, reference counts are exact and nothing leads to freed memory
  **if and only if** no callback reports an error for an event that it, or one before it in the same walk,
  unregistered. Otherwise the poll array holds a freed event, which the next poll touches. After a poll
  the list is what its callbacks registered, latest first, and then the survivors in order.
- The main connection runs only over a ready uplink and a control address, at every turn of every run,
  **if and only if** no poll took the uplink down or removed the address while main waited for its ports.
  Ports may come and go at any turn while main is up.
- Whenever main goes on from waiting for its ports to asking for a snapshot, each of its port requests was
  answered **if and only if** no callback of that poll took main to idle while one was not.
- Over every run the retry delay is bounded and tells how often main was reset since it was last ready or
  reset by hand; four such resets bring it back to idle and the fifth ends the process.
- After a snapshot, exactly the later updates are applied, each once and in order, **if and only if**
  the later ones all arrive and in order; then the state is that of the whole stream.
- Over any calls, the list of cached commands is one queue for each interface **if and only if** no
  command without arguments got an entry and none queued behind others ran out of memory for its
  arguments; replies and what handlers are shown are then those of the queues.
- In any interleaving of resolvers, updates, deletions and timers, no packet is lost or duplicated and
  an entry that is valid, deleted or unlinked holds none. An entry is valid **if and only if** an update
  came that it did not refuse, then has the address of the latest such, and a packet is resolved exactly
  from such an entry.

## Where the code does not meet the property expected of it

Each of these has a concrete case or an exact condition among the rows below.

- A poll that idles main while it waits for its ports empties the request list, the ports then count as
  done, and main asks for its snapshot over an uplink that is down (`OvertakenRun`). A reset by hand in
  that poll has it ask without the answers even over a ready uplink (`DiscardsRun`).
- An update of a multicast route does not take the output group back when the reverse-path group is
  refused, and then deletes the group the entry refers to (`Torn`, `TearExample`).
- The list of a reverse-path group names only its last member, so a group for two interfaces or more
  cannot be cleaned up within the promises (`ManyMembersForgotten`).
- The number of outgoing interfaces is passed on as a byte. A route carries what was asked for exactly when
  the selected interfaces are no more than that byte (`AskedFor`); with 256 it carries none (`NoneOf256`).
- A capture filter is given the first segment of a packet and the length of all segments. It stays in the
  packet exactly when what it may read lies in the first segment (`FiltersReturn`, `TwoSegmentsExample`).
- A halfword read takes a byte that is not in the packet when the next segment is empty (`XHalf`). An
  absolute halfword that is not there counts as zero and the program goes on (`LoadFromChain`).
- Both sources number their port requests from one counter, so a number can come to be that of another
  request; they stay distinct exactly when the next number is not in use (`TakeIni`).
- The end of a snapshot is recognised by any topic that begins the end marker or that it begins
  (`SnapshotOne`).
- The hash threshold gives the index past the last path to the keys left at the top, for every number
  of paths from two up; a single path is taken without it (`ThresholdRegions`, `Select`).
- Queued packets are counted with the retries of an address, so a burst uses them up; the count is a
  byte and wraps (`BurstUsesRetries`, `AsksOnce`). A resolver that finds an entry waiting to be unlinked
  looks again until another thread unlinks it (`AloneFinishes`).
- A cached command that is refused for want of memory can take an older command's place, and one without
  arguments leaves a blank entry or freed pointers behind (`RefusedAdd`, `RefusedExample`).
- A next-hop group is made by the backend chosen for IPv4 even when IPv6 routes use it
  (`GroupReachesRoute`).

## Model

| member | source | states |
|---|---|---|
| BpfFilter.GuardsAreBounds | src/bpf_filter.c:273-335 | the 32-bit tests before an indexed load pass exactly when its bytes lie in the captured part, although the index addition wraps |
| BpfFilter.LoadsAgree | src/bpf_filter.c:52-64 | a load of one, two or four bytes extracted in place is the big-endian number of those bytes, and reads past the buffer exactly when they are captured and not all there |
| BpfFilter.LoadArmsMean | src/bpf_filter.c:205-335 | every absolute and indexed load of the switch does what the reference gives for size and mode: the bytes, no match outside the captured part, or a read past the buffer |
| BpfFilter.IndexArmsMean | src/bpf_filter.c:269-371 | every load of the index register does too: length, header length, immediate, scratch memory |
| BpfFilter.LowNibble | src/bpf_filter.c:337-354 | masking and shifting a byte gives four times its low nibble, the IP header length |
| BpfFilter.JumpArmsMean | src/bpf_filter.c:380-414 | every jump arm skips as the reference test says |
| BpfFilter.ArithArmsMean | src/bpf_filter.c:416-503 | additive and multiplicative arms and negation agree with the reference modulo 2^32; a zero divisor in the index register ends with no match |
| BpfFilter.BitArmsMean | src/bpf_filter.c:440-499 | bitwise and shift arms agree with the reference |
| BpfFilter.OtherArmsMean | src/bpf_filter.c:199-511 | returns, packet length, immediates, scratch memory and register moves agree with the reference |
| BpfFilter.Switch | src/bpf_filter.c:191-511 | the whole switch has the effect of the reference instruction, for every code, listed or not |
| BpfFilter.Step | src/bpf_filter.c:190-512 | one turn of the loop updates registers and scratch array in place as the reference does |
| BpfFilter.Interpret | src/bpf_filter.c:175-513 | on every program and packet it returns what the reference run returns, after as many instructions |
| BpfFilter.Filter | src/bpf_filter.c:175-188 | a null program accepts every packet whole, any other ends as its reference run, however many bytes are declared readable |
| BpfMachine.KnownIsListed | src/bpf_filter.c:191-511 | the instruction codes with a meaning are exactly the listed ones |
| BpfMachine.BigEndianBytes | src/bpf_filter.c:56-64 | the big-endian number of one, two and four bytes |
| BpfMachine.ExtractIsSum | src/bpf_filter.c:52-64 | shifting the bytes into place and combining them by or gives that number, for all bytes |
| Bits.GatesAt | src/bpf_filter.c:440-486 | each bit of an and, or and exclusive or comes from the two bits in its place |
| BpfMachine.ShlAt | src/bpf_filter.c:452-494 | a left shift moves every bit up by its count and drops what leaves the word |
| BpfMachine.ShrAt | src/bpf_filter.c:456-498 | a right shift moves every bit down, and the word is the result scaled back and what was shifted out |
| BpfPrograms.AluGives | src/bpf_filter.c:416-503 | every arithmetic instruction gives the value its name means: sums and products modulo 2^32, quotients and remainders by their bounds, the others bit by bit; and no other value |
| BpfPrograms.SharedBit | src/bpf_filter.c:396-414 | a bit test succeeds exactly when the words share a bit |
| BpfPrograms.ByteTestAccepts | src/bpf_filter.c:175-513 | a filter that compares the result of an operation on a byte accepts exactly the packets that have the byte and give the value |
| BpfPrograms.RangeTestAccepts | src/bpf_filter.c:175-513 | a filter on a range accepts exactly the packets whose halfword is in it |
| BpfPrograms.TcpToAccepts | src/bpf_filter.c:175-600 | the filter for a TCP destination port passes the validator and accepts exactly the IPv4 TCP packets, not later fragments, that carry the port behind a header of the length they declare |
| BpfValidate.BitmapIsExact | src/bpf_filter.c:516-536 | the bitmap of codes admits exactly the codes that have a meaning, over all 16-bit codes |
| BpfValidate.CheckInsn | src/bpf_filter.c:553-597 | the per-instruction checks pass exactly when the instruction is sound at its place |
| BpfValidate.Validate | src/bpf_filter.c:546-600 | a program is accepted exactly when its length is not negative and it is empty, or every instruction is sound and the last returns |
| BpfValidate.SoundStep | src/bpf_filter.c:546-600 | a sound instruction goes on inside the program or returns, whatever the registers, unless more was declared readable than there is |
| BpfValidate.RefusedExactly | src/bpf_filter.c:546-600 | an instruction before the last is refused exactly when it gets stuck for some registers and packet, or is a conditional jump that leaves the program only by a side it never takes |
| BpfValidate.AcceptedPrograms | src/bpf_filter.c:546-600 | an accepted program run from any place with any registers executes each instruction at most once and ends in a return, or in a read past the buffer when more was declared readable than there is; it does not abort, run off its end, leave scratch memory or divide by zero |
| BpfValidate.ReadsInside | src/bpf_filter.c:175-513 | no program reads past the buffer when what is declared readable is there |
| BpfValidate.ReadsOutside | src/bpf_filter.c:175-600 | otherwise an accepted program of two instructions does |
| BpfValidate.ValidatedFilter | src/bpf_filter.c:175-600 | the interpreter on a program the validator let through returns, after at least one and at most as many instructions as the program has; it can read past the buffer only when more was declared readable than there is |
| MbufChain.Locate | src/bpf_filter.c:75-86 | the segment walk finds the only segment that holds a byte, or tells that the chain is too short |
| MbufChain.TwoSegments | src/bpf_filter.c:90-137 | bytes in one segment and the next are those of the flattened chain |
| MbufChain.XWord | src/bpf_filter.c:90-137 | a word read succeeds exactly when its bytes exist in at most two adjacent segments, and is then the flat read |
| MbufChain.XHalf | src/bpf_filter.c:139-167 | a halfword read is the flat read under the same condition, and takes a byte outside the packet exactly when the next segment is empty |
| MbufChain.LoadFromChain | src/bpf_filter.c:205-335 | the loads of the switch from a chain of segments: the flat read where it exists, else no match, except that an absolute halfword goes on with zero and a halfword before an empty segment leaves the packet |
| FalContract.BreachIsForever | include/fal_plugin.h:89-127 | a broken promise is not mended by later calls |
| FalContract.CreateKeeps | include/fal_plugin.h:89-127 | a create whose handles are live keeps the promises about objects and adds one object |
| FalContract.GrewByStep | include/fal_plugin.h:120-127 | a create under a key keeps the promise about keys when no live object has that key |
| FalContract.DeleteKeeps | include/fal_plugin.h:89-127 | a delete keeps the promises if and only if nothing refers to the object |
| FalContract.SetKeeps | include/fal_plugin.h:89-127 | setting an attribute to a live group keeps the promises whatever the answer |
| FalGroups.MembersGo | src/fal.c:2890-2918 | deleting distinct listed members of a group keeps the promises and removes them alone |
| FalGroups.CleanupEffect | src/fal.c:2890-2918 | cleaning a group up keeps the promises if and only if all its members are listed |
| FalGroups.GroupJoins | src/fal.c:2920-2975 | a new group joins the graph beside what was there |
| FalGroups.MemberJoins | src/fal.c:2920-2975 | a new member joins its group |
| FalMroute.Plugin.Create | src/fal.c:2680-2688 | a create yields a handle that was not in use, or an error and no object |
| FalMroute.Plugin.SetEntry | src/fal.c:2700-2712 | the call and its answer are recorded |
| FalMroute.Plugin.Delete | src/fal.c:2690-2698 | the call is recorded; the object is gone |
| FalMroute.CleanupRpfGroup | src/fal.c:2890-2918 | the calls made are the deletes of the listed members, then of the group |
| FalMroute.CleanupOlist | src/fal.c:2977-2994 | null slots make no call, the others are deleted in order and the list is emptied |
| FalMroute.CleanupOutGroup | src/fal.c:3093-3112 | the calls made are the deletes of the listed members, then of the group |
| FalMroute.FirstSlotNames | src/fal.c:2959-2968 | the list of a reverse-path group names its members exactly when there is at most one |
| FalMroute.AddRpfMembers | src/fal.c:2947-2968 | members are made for the interfaces in order until one is refused or not known to the plugin; all are made if and only if neither happens |
| FalMroute.CreateRpfGroup | src/fal.c:2920-2975 | for one interface all of the group is made or, on any refusal, nothing is left; it is made if and only if the plugin refuses nothing, there is memory and all interfaces are known to it |
| FalMroute.AddOutMembers | src/fal.c:2996-3091 | members are made for the selected outgoing interfaces in table order, as many as there are slots; on a refusal those made are deleted |
| FalMroute.CreateOutGroup | src/fal.c:3114-3158 | the group with one member for each selected interface there is a slot for, or nothing; it is made if and only if the plugin refuses nothing, there is memory and the family is one of the two |
| FalMroute.WantedIsAll | src/fal.c:2996-3091 | the group carries all selected interfaces exactly when there is a slot for each |
| FalMroute.ManyMembersForgotten | src/fal.c:2890-2975 | cleaning up a reverse-path group keeps the promises if and only if it was made for at most one interface |
| FalRouteGraph.Torn | src/fal.c:3302-3376 | after an accepted output group and a refused reverse-path group the clean-up breaks a promise |
| FalRouteGraph.TearExample | src/fal.c:3260-3377 | a concrete instance with members: a route is made, both new groups are made, one is taken and one refused, and the clean-up deletes the group the entry refers to |
| FalRouteGraph.BothTaken | src/fal.c:3302-3338 | when both are accepted the old groups go and the route holds the new ones |
| FalRouteGraph.OutRefused | src/fal.c:3302-3311 | when the output group is refused the new groups go and the route is as before |
| FalRouteGraph.RouteGoes | src/fal.c:3245-3258 | deleting the entry and then its groups keeps the promises and leaves nothing of the route |
| FalRoutes.BuildRoute | src/fal.c:3160-3243 | groups and entry are all made, for the parent and the selected interfaces that fit the byte count, or none is left; made if and only if the plugin refuses nothing and what is needed is there, the entry last and under the key |
| FalRoutes.AskedFor | src/fal.c:3114-3158 | a programmed route carries every selected interface if and only if they are no more than the count modulo 256 |
| FalRoutes.NoneOf256 | src/fal.c:3185-3195 | with 256 outgoing interfaces the output group is empty |
| FalRoutes.NewMroute | src/fal.c:3160-3243 | a new route keeps every promise on every answer; it is made if and only if the plugin refuses nothing, there is memory, the parent is known to the plugin and the family is one of the two, and then carries what was asked for exactly when the selected interfaces fit the byte count |
| FalRoutes.DelMroute | src/fal.c:3245-3258 | a deleted route leaves no object behind and keeps every promise |
| FalRoutes.SwitchGroups | src/fal.c:3302-3338 | the entry ends with both new groups, or with both old ones, or torn and a promise broken |
| FalRoutes.MakeGroups | src/fal.c:3274-3301 | both new groups are made beside the route, or the route is as before; made if and only if the plugin refuses nothing and what is needed is there |
| FalRoutes.ReplaceGroups | src/fal.c:3274-3338 | on failure the route's record is unchanged and so are its objects, unless the entry was torn; it succeeds if and only if the plugin refuses nothing and what is needed is there, and then carries what was asked for exactly when the selected interfaces fit the byte count |
| FalRoutes.ReplaceRpf | src/fal.c:3339-3370 | replacing only the reverse-path group keeps every promise on every answer, and succeeds if and only if the plugin refuses nothing, there is memory and the parent is known to it |
| FalRoutes.UpdMroute | src/fal.c:3260-3377 | an update keeps every promise exactly when the entry was not torn, does nothing without an entry or a change, succeeds if and only if the plugin refuses nothing and what is needed is there, and programs what changed, in full exactly when the selected interfaces fit the byte count |
| FalRuns.TakePart | src/fal.c:3160-3377 | one route's objects can be split off: no other live object refers to them nor they to it |
| FalRuns.PutPart | src/fal.c:3160-3377 | putting a route's new objects back keeps the live objects partitioned among the routes |
| FalRuns.Step | src/fal.c:3160-3377 | one call about one route keeps the whole graph in order, or tears an entry and breaks a promise, and changes no other route |
| FalRuns.KeyedNew | src/fal.c:3160-3243 | a route without an entry may create one: no live object has its key |
| FalRuns.RouteIsLive | src/fal.c:3160-3243 | an entry a route records is live, refers to the groups the route records and is under the route's own key |
| FalRuns.Call | src/fal.c:3160-3377 | every call about a route keeps each live entry under the key of the one route that records it, leaves no entry after a delete, and succeeds exactly when the plugin refuses nothing and what is needed is there |
| FalRuns.Run | include/fal_plugin.h:89-127 | over any calls and answers the promises, that about keys among them, are kept if and only if no entry was torn; then the live objects are exactly those recorded, each entry under its key, and none when all routes are deleted; no member is made for an interface the plugin does not know, and a deleted route has no entry |
| EventList.Todo.Release | src/event.c:43-47 | a reference less, and memory given back at zero |
| EventList.Todo.Register | src/event.c:111-132 | a new event with the socket, descriptor and source asked for heads the list with one reference, exactly when there is memory |
| EventList.Todo.DeleteEvent | src/event.c:150-162 | a linked event leaves the list and the counts stay exact; unlinking an unlinked one leaves its count one short of the places that refer to it, and gives back memory the poll array still refers to |
| EventList.Todo.UnregisterSocket | src/event.c:164-182 | exactly the events of the socket leave, in a walk that deletes as it goes; success means one was found |
| EventList.Todo.ReleaseSnapshot | src/event.c:50-62 | every place of the old poll array gives its reference up |
| EventList.Todo.TakeSnapshot | src/event.c:64-103 | the poll array and its items are the list in order, with a reference for each place |
| EventList.Todo.Rebuild | src/event.c:50-105 | after a rebuild an event's memory is given back exactly when it is not listed; an empty list ends the process |
| EventList.Todo.RunOps | src/event.c:111-182 | a callback's registrations and removals keep the counts exact, put what it registers at the head in order and drop exactly the sockets it named |
| EventList.Todo.Visit | src/event.c:213-230 | one place of the walk keeps the counts exact when its callback is polite, and changes the list as the callback asked; otherwise the poll array leads to freed memory |
| EventList.Todo.GetNextEvent | src/event.c:194-233 | a poll leaves a valid state if and only if the walk was polite, with the list its callbacks make of the old one; otherwise the poll array leads to freed memory, which the next poll touches |
| EventList.Todo.DanglingIsInvalid | src/event.c:43-105 | exact counts leave no way to freed memory |
| EventList.CalledBack | src/event.c:213-230 | an event whose callback reports an error is still linked exactly when the walk is polite so far |
| EventList.WalkShape | src/event.c:111-233 | after a walk the list is what the callbacks registered and none unregistered since, latest first, and then what is left of the old list in its order |
| EventList.Run | src/event.c:43-233 | over any calls something leads to freed memory if and only if some poll walked its list impolitely; otherwise the counts are exact and the lists change as the calls say |
| PortRequests.Find | src/controller.c:349-364 | the first request with the number, or none |
| PortRequests.Requests.Cleanup | src/controller.c:366-393 | both lists are emptied; the first-stage requests in them count as lost, not as answered |
| PortRequests.Requests.TakeIni | src/controller.c:675-722 | an answered first-stage request leaves its list and goes on to the second with the next number, or is dropped; numbers stay distinct exactly when no other request has that number |
| PortRequests.Requests.Response | src/controller.c:858-912 | an answer takes the first request with its number, from the main list or else from the alternate one, a stage further or off; no other request changes list, stage or number, and the work left shrinks |
| PortRequests.Requests.Setup | src/controller.c:1060-1143 | one request is queued for each wanted port, in order and with consecutive numbers; it succeeds if and only if the ports are in range and every request can be sent, and else stops at the first that cannot |
| PortRequests.Requests.DoneMeansAnswered | src/controller.c:1052-1055 | with the list empty, what the connection asked and has no answer for is what it lost, so all is answered if and only if nothing was lost |
| ControlLoop.ResetKeeps | src/controller.c:531-560 | a reset keeps the invariants, and the coupling when main was up |
| ControlLoop.ApplyKeeps | src/controller.c:926-1161 | every callback and timer, and every port that comes or goes, keeps the invariants and the coupling |
| ControlLoop.SwitchKeeps | src/controller.c:1489-1607 | every turn of the switch keeps the delay a multiple of the minimum within its bound, without any assumption on callbacks |
| ControlLoop.SwitchMoves | src/controller.c:1489-1607 | a turn that does not poll takes its source on exactly when what it tries for is granted, to reset exactly when denied, and otherwise leaves it |
| ControlLoop.ApplyMoves | src/controller.c:926-1044 | exactly which callbacks and timers leave a source in reset and which make it ready |
| ControlLoop.PollUplink | src/controller.c:1566-1583 | what a poll leaves of the uplink and of the address, from its callbacks alone |
| ControlLoop.SwitchCouples | src/controller.c:1489-1607 | a turn keeps main coupled to the uplink if and only if main was not overtaken while waiting for its ports |
| ControlLoop.OvertakenExample | src/controller.c:1566-1583 | a state and a callback that break the coupling |
| ControlLoop.DropsExactly | src/controller.c:302-560 | exactly which callbacks and timers take main to idle and which discard an unanswered port request |
| ControlLoop.SwitchAnswers | src/controller.c:1566-1583 | when main goes on to ask for a snapshot no request waits, and one was lost if and only if a callback of that poll discarded it |
| ControlLoop.DiscardsExample | src/commands.c:831-835 | a reset by hand in that poll has main ask for a snapshot with a request unanswered |
| ControlRuns.RunBounds | src/controller.c:485-527 | in every run the retry delay is a multiple of the minimum and at most the maximum and one minimum more |
| ControlRuns.RunAnswers | src/controller.c:1566-1583 | at every turn of every run, when main goes on to ask for a snapshot every port request was answered if and only if no callback of that poll discarded one |
| ControlRuns.RunCouples | src/controller.c:1453-1611 | over every run main is coupled at every turn if and only if no poll overtook it |
| ControlRuns.OvertakenRun | src/controller.c:1453-1611 | a timely run of 26 turns from the start, with one port asked about, ends uncoupled and with the request lost |
| ControlRuns.DiscardsRun | src/controller.c:1453-1611 | another ends coupled and with the request lost |
| ControlRuns.ApplyRecalls | src/controller.c:485-560 | every callback and timer moves the delay as the count of resets moves |
| ControlRuns.RunRecalls | src/controller.c:485-560 | over every run the delay tells the resets of main since it was last ready or reset by hand, and the process runs until one ended it |
| ControlRuns.ResetInRun | src/controller.c:485-527 | at any point of any run a delayed reset brings main back to idle with a longer delay up to the fourth, and the fifth ends the process |
| Controller.Controller.PortAnswer | src/controller.c:858-912 | which list an answer finds its request in decides what it does to the lists |
| Controller.Controller.PlugPort | src/controller.c:1145-1161 | a port that comes or goes queues one request on the list its direction calls for exactly when it is in range, wanted and, unless it goes, can be asked about |
| Controller.Controller.Turn | src/controller.c:1475-1607 | when a turn takes main from waiting to asking for a snapshot, its answered requests are all it issued if and only if no callback discarded one |
| Controller.Controller.MainLoop | src/controller.c:1453-1611 | every run of the loop is a run of the specification on the same inputs and the requests its ports call for, so the delay is bounded and tells the resets, requests are answered as stated, and main is coupled exactly when never overtaken |
| Controller.Process | src/controller.c:1453-1611 | the same of the process from its start, with no assumption on the state |
| Resync.Subscriber.SnapshotOne | src/control.c:756-788 | a part is applied and its number kept, and the end is recognised exactly by topics that begin the marker or that it begins |
| Resync.Subscriber.Snapshot | src/control.c:756-788 | the parts up to the end marker are applied in order |
| Resync.Subscriber.Receive | src/control.c:794-836 | an update is applied exactly when its number is above the last one taken |
| Resync.Subscriber.ReceiveAll | src/control.c:794-836 | over any arrivals the state is the fold of those applied |
| Resync.AppliedExactly | src/control.c:808-831 | an update is applied exactly when it is newer than the snapshot and than everything before it |
| Resync.ExactlyTheRest | src/control.c:794-836 | the later updates are applied each once and in order if and only if they all arrive and in order |
| Resync.ResyncConverges | src/control.c:756-836 | snapshot and subscription together give the state of the whole stream |
| Resync.Subscriber.Resynchronise | src/control.c:756-836 | a snapshot that amounts to the updates up to its end and then the subscription apply exactly the rest of the stream if and only if it arrives in order, and then the state is that of the whole stream |
| Resync.OverlapIsInOrder | src/control.c:756-836 | a subscription that overlaps the snapshot satisfies the condition |
| CfgIfList.PackReads | src/control.c:1102-1128 | every argument reads back from its place in the packed buffer |
| CfgIfList.PackArgs | src/control.c:1102-1128 | the sizing loop and the copying loop fill the buffer exactly |
| CfgIfList.Cache.Del | src/control.c:1192-1214 | the oldest entry of the interface goes and nothing else, or there is none |
| CfgIfList.Cache.Add | src/control.c:1079-1131 | the new list and the result, for every answer of the allocator |
| CfgIfList.AddedQueues | src/control.c:1079-1151 | the list works as one queue for each interface: the command goes behind the others, or in single mode over the oldest, and other queues do not change |
| CfgIfList.QueueOfRest | src/control.c:1019-1049 | the other interfaces' queues depend on the other entries only |
| CfgIfList.RefusedAdd | src/control.c:1079-1131 | exactly which refused adds leave the list as it was, leave it with commands only, and leave no freed pointer |
| CfgIfList.Cache.CacheCommand | src/control.c:1226-1236 | the list is made when needed and the command queued |
| CfgIfList.Cache.Destroy | src/control.c:1216-1224 | only an empty list is destroyed |
| CfgIfList.Cache.Replay | src/control.c:1019-1049 | an interface's commands are handed over oldest first, each once, up to the first refused; those taken leave, the rest stay, other entries keep their order, and an empty list is destroyed |
| CfgIfRuns.KeptFits | src/control.c:1079-1151 | an add leaves a command in every entry if and only if it is refused before the list is touched, or has arguments and is not queued behind others without memory for them |
| CfgIfRuns.KeptMatches | src/control.c:1079-1236 | and then it does to its queue what caching a command means |
| CfgIfRuns.ShownReads | src/control.c:1019-1049 | the arguments a handler is shown read back as those that were cached |
| CfgIfRuns.Do | src/control.c:1019-1236 | one call of any kind keeps the list in step with the queues exactly when it fits them |
| CfgIfRuns.Run | src/control.c:1019-1236 | over any calls every entry holds a command at every point if and only if every call fits; then the list is the queues, nothing is freed twice, and replies and handed commands are those of the queues |
| CfgIfRuns.RefusedExample | src/control.c:1108-1119 | a second command without memory for its arguments does not fit |
| CfgIfRuns.CleanAgain | src/control.c:1108-1119 | it costs the first command and leaves a blank entry, which a later delete hides |
| Arp.Llentry.Enqueue | src/arp.c:339-351 | the packet is held in place, the oldest dropped when there are eight |
| Arp.Llentry.Update | src/if_ether.c:134-190 | unless the entry is static and the update is not, the entry becomes valid with the new address and what it held is taken out in order |
| Arp.Llentry.Destroy | src/if_llatbl.c:171-197 | the entry is marked and what it held is dropped |
| Arp.HoldsTheLatest | src/arp.c:339-346 | of any packets queued the last eight are held and the others were dropped, in order |
| Arp.RunHoldsTheLatest | src/arp.c:284-365 | in every run an entry holds the latest eight, or fewer, of the packets queued on it since it was last emptied, in order |
| Arp.NextOutcomes | src/arp.c:284-365 | exactly which steps resolve a packet, with which address, refuse it, drop it, take it out to be sent or send a request |
| Arp.RunMarks | src/if_ether.c:134-190 | over every run an entry is valid exactly when an update came that it did not refuse, with the address of the latest such; static exactly when made or updated so; and deleted exactly when a deletion or the last timer came |
| Arp.UpdateResolves | src/arp.c:289-298 | after an accepted update the next packet for the address is resolved at once, with what the update brought |
| Arp.AsksOnce | src/arp.c:351-361 | the resolver asks for the first packet and, the count being a byte, for every 256th after it |
| Arp.BurstUsesRetries | src/if_ether.c:568-586 | how many probes the timer still sends after a burst, exactly |
| Arp.NextKeeps | src/arp.c:284-365 | every step of every thread keeps entries that are valid, deleted or unlinked empty, and at most one entry live |
| Arp.NextCounts | src/arp.c:284-365 | every step keeps the number of places each packet is in |
| Arp.Reachable | src/if_llatbl.c:321-329 | in every interleaving no packet is lost or duplicated and an entry about to be freed holds none |
| Arp.AloneFinishes | src/arp.c:289-325 | a resolver on its own finishes within three steps if and only if it does not find an entry waiting to be unlinked |
| Arp.StuckForever | src/arp.c:321-325 | otherwise it comes back to the same state for ever |
| Ecmp.WeightsDiffer | src/ecmp.c:125-132 | two paths have the same weight for a key if and only if their indices agree in 31 bits |
| Ecmp.KeysDiffer | src/ecmp.c:125-132 | two keys give a path the same weight if and only if they agree in 31 bits |
| Ecmp.HighestWeight | src/ecmp.c:134-148 | the path chosen is the first of highest weight |
| Ecmp.BestIsStrict | src/ecmp.c:134-148 | there are no ties |
| Ecmp.LeastDisruption | src/ecmp.c:134-148 | a flow moves only if its own path went, or to a path that was added |
| Ecmp.ThresholdRegions | src/ecmp.c:166-171 | every path owns an equal run of keys and the keys left at the top, the remainder and one more, are given the index past the last path |
| Ecmp.Lookup | src/ecmp.c:166-182 | the path of a flow in each mode, and exactly when it is in range |
| Ecmp.Select | src/nh_common.c:1656-1682 | the flow's own path, or where that is dead the first that is not, or none when all are dead; past the end exactly for the keys left at the top |
| Backends.PickIsFirst | src/fal_capability.c:265-292 | the choice is the first loaded backend that claims the capability |
| Backends.UnloadKeepsChoice | src/fal.c:929-957 | unloading a backend moves only the choices that fell on it, to the next that claims them |
| Backends.LoadKeepsChoice | src/fal.c:811-850 | a backend loaded later takes only what no earlier one claims |
| Backends.GroupReachesRoute | src/fal.c:2218-2220 | the backend of an IPv6 route knows the next-hop group if and only if the first backend that claims either family claims both |
| Backends.Table.Refresh | src/fal_capability.c:178-227 | the cache holds what the loaded backends claim and nothing for empty slots |
| Backends.Table.Select | src/fal_capability.c:265-292 | the slot found is that of the choice, and none exactly when there is no choice |
| Backends.Table.Dispatch | src/fal.c:1011-1030 | an operation is sent to the backend its group's capability picks |
| Backends.Table.Register | src/fal.c:888-904 | a handler goes into the claimed slot, or is refused outside a load |
| Backends.Table.InitPlugin | src/fal.c:811-850 | a plugin becomes the last backend exactly when there is a slot, it loads and it registers |
| Backends.Table.InitPlugins | src/fal.c:852-886 | the table holds the plugins in the order written and the cache what they claim |
| Backends.Table.Delete | src/fal.c:929-957 | the backend goes, those behind it move up and the cache is asked afresh |
| Backends.Run | src/fal.c:811-957 | after any loads and unloads the slots hold the loaded backends in order, the cache their answers, and an operation goes to the first that claims its capability |
| Capture.AddIfSpace | src/capture.c:465-473 | what there is space for is appended |
| Capture.TagIsInserted | src/capture.c:523-543 | the tag reads back from its place and the packet without it is as before |
| Capture.PiecesOnWire | src/capture.c:523-563 | the pieces written make up the packet as it was on the wire |
| Capture.Frames | src/capture.c:530-565 | the frames hold the first bytes of it, up to the snap length, over any segments |
| Capture.Write | src/capture.c:476-569 | the frames are exactly the first caplen bytes, caplen the smaller of snap length and whole length, len the whole length |
| Capture.Mask | src/capture.c:486-501 | whether every filter returns, and then a capture gets the packet exactly when it is on and none of its filters turned it down |
| Capture.FiltersReturn | src/capture.c:320-501 | all filters that can be installed return if and only if the bytes declared readable lie in the first segment |
| Capture.BehindTheSnap | src/capture.c:486-501 | no filter's answer depends on bytes from the snap length on |
| Capture.BeforeTheSnap | src/capture.c:486-501 | a filter can see every byte of the first segment below both the packet length and the snap length, and no other |
| Capture.TwoSegmentsExample | src/capture.c:486-501 | on sixty bytes in two segments an accepted filter reads past the first |
| CommandLine.Unsplit | src/commands.c:2041-2055 | the arguments are joined exactly when with a space after each they take less than the buffer |
| CommandLine.NextToken | src/commands.c:2020-2035 | the next token is ended in place and what follows it is untouched |
| CommandLine.Split | src/commands.c:2020-2035 | the first 127 tokens, in order; a blank line is one null argument |
| CommandLine.JoinRoundTrip | src/commands.c:2020-2055 | the tokens of joined arguments are the arguments if and only if each is a word |
| CommandLine.JoinAndSplit | src/commands.c:2020-2055 | splitting undoes joining in the buffer if and only if the arguments are words and at most 127 |

## How to read the model

- Outcomes that the code does not decide are inputs or free choices: answers of plugins, of the allocator
  and of peers, what callbacks do, which timers fire, how threads interleave.
- A section under a lock is one step of `Arp`; reads outside the lock are steps of their own. Entries are
  never reused, as the grace period guarantees. One address of one interface is modelled.
- Promises to a plugin are stated on the sequence of calls it sees (`FalContract`). The IPv6 functions
  (src/fal.c:3379-3596) are the same code over IPv6 types and are covered by the same methods.
- `ControlLoop.Timely` says that no callback of a closed socket, no timeout of a missing request and no
  port that comes or goes while main is idle occurs. Only the coupling needs it.
- An allocation of no bytes gives no memory, as in the library the source uses; so no empty capture filter
  is installed.
- A run of the command cache is an argument of `CfgIfRuns.Run`: the answers of the allocator and the
  verdicts of handlers are part of the calls.
- In `BpfFilter` a shift by 32 or more, which C leaves undefined, shifts everything out. The validator and
  the readers across segments are modelled from the text under `_KERNEL`.
- Words are integers with their wrap-around written out.

## Left out

- Controller with a local controller only: the uplink machine alone; the remote case contains it.
- FalRuns.Run: routes with one incoming interface, as the route functions make them; several interfaces are covered by `ManyMembersForgotten`.
- CfgIfList.Cache.Replay: the handler does not change the list it is called for.
- Capture.Mask: the mask is the set of its bits; what lies in memory behind the first segment is not modelled, so a filter that reads there has no answer.
- Arp.NextOutcomes: finding an entry valid and copying its address without the lock is one step, so an update between the two is not modelled.
- Ecmp.Select: lists without paths, and the map of buckets that replaces the algorithms when it is set.
- The hash of a packet into a flow key, the third-party hash function and the parsing of headers.
- `cfg_if_list_bin_add`, which stores a message as one block in the same way.
- Sockets, message encoding, logging, statistics, JSON output and command handlers.
- Forwarding, firewall, QoS, crypto and protocol code outside the files above.
