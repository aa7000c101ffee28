# A model of illumos-fuse2

FUSE for illumos lets a file system be served by a process: the kernel module `fusefs`
keeps nodes, locks and open handles and calls the process through a door, and `libfuse`
in the process keeps its own tree of nodes, locks the paths it hands to the file system,
and does bookkeeping for locks, directories, interrupts and options. The project models
the parts of both sides where many operations share state, and proves what they keep.

| part | files |
|---|---|
| the tree of nodes, path locks and tickets, and all interleavings of the operations on them | `node_tree.dfy`, `path_locks.dfy`, `path_lock_runs.dfy` |
| what becomes of names, lookups and paths in a run | `node_history.dfy` |
| whom the tickets left on nodes belong to | `path_tickets.dfy`, `ticket_runs.dfy` |
| the same operations on the hash chains and buffers of `libfuse`, one by one and in any order | `fuse_nodes.dfy`, `fuse_runs.dfy` |
| byte-range locks | `byte_locks.dfy` |
| the kernel's node cache, its free list, its order of paths | `node_cache.dfy`, `free_list.dfy`, `node_order.dfy` |
| who holds which node of that cache, and in which order nodes are used again | `cache_history.dfy` |
| the kernel's interruptible, re-enterable reader/writer lock | `rwlock.dfy` |
| rewriting of symbolic links in the `subdir` module | `symlink.dfy`, `symlink_meaning.dfy` |
| option strings and the argument parser | `option_lists.dfy`, `option_parser.dfy` |
| directory records, the directory buffer, and reading a directory | `dir_records.dfy`, `dir_stream.dfy`, `dir_read.dfy` |
| readers that share the buffer of a directory | `shared_read.dfy` |
| interrupts and the life of requests | `interrupts.dfy`, `interrupt_runs.dfy`, `interrupt_history.dfy` |
| handles shared by open files | `handles.dfy` |

Concurrency is modelled as runs: a state, the atomic steps that threads take (the sections
between taking and releasing a mutex, and finer ones where the code lets a lock go in the
middle), and theorems about every state of every run. Code that works on its fields and
buffers step by step is a class or a method over arrays, proved against the functions the
theorems are about. C strings are sequences of characters without NUL, pointers into a
string the string that starts there, 32-bit counters and sizes are written out where they
wrap or saturate.

## What does not hold

- A ticket on a node does not always belong to an operation that waits. An attempt leaves its
  ticket behind exactly when nothing stands in its way and either one of its walks does not end
  at the root, or a node it has reserved is no longer on its way
  (`PathTickets.TicketsLiveIff`). Both happen to nodes that are still in the tree: the first
  directory of two when the second is gone (`TicketRuns.FailedSecondLeavesTicket`), and a node
  renamed away from the operation that waits for it (`TicketRuns.RenamedAwayLeavesTicket`). The
  ticket then stays (`PathTickets.DeadTicketStays`), and every request through the node waits
  (`PathTickets.TicketStops`).
- The kernel's node cache takes a node out of a tree it is not in, in two ways. It tests the
  RHASHED flag before it takes the lock of the tree, and a removal may come in between
  (`NodeCache.OvertakenTestBreaks`). And `fusefs_rmhash` does not test it at all, so two holders
  who remove one node, the second getting ENOENT, both take it out
  (`NodeCache.TwoRemovalsBreak`). `NodeCache.RunBreaksIff` says that these are all the ways, and
  `NodeCache.UndisturbedRunsHold` that the tree is never broken in runs without either.
- A node's path is freed only when nobody else has the node, is the intent, but a thread that gives
  up or recycles a node and finds it unhashed frees the path before it looks at the count: a holder
  is left with a node without a path (`NodeCache.PathFreedInUse`). That happens exactly to nodes
  that were removed and have been held since (`NodeCache.CleansHeldIff`).
- The walk that invalidates attributes takes its node to be in the tree. A node that was removed and
  is still held is not (`NodeCache.HeldOutsideTree`), and a failing getattr starts a walk from it all
  the same; `NodeCache.HeldInTreeIff` says exactly which held nodes are in the tree.
- A node on the freelist is meant to be in the tree, but a thread that gives a node up decides to
  keep it before it takes the lock, and a removal may come in between
  (`NodeCache.LateRemovalStays`). It happens in no other way (`NodeCache.FreelistIsHashedIff`).
- Invalidating the attributes of everything below the root misses what is there: the code looks
  for a separator behind the path, and there is none behind `/` (`NodeOrder.RootChildStays`). For
  every other node it is exact (`NodeOrder.UnderIsBelow`, `NodeOrder.Prune`).
- A rewritten symbolic link may lead elsewhere if the base directory is given with dots and the
  link has repeated slashes (`SymlinkMeaning.DotInBaseMisleads`). `SymlinkMeaning.KeepsMeaningIff`
  gives the exact condition.
- Leading empty options do not survive being joined (`OptionLists.EmptyOptionIsLost`);
  `OptionLists.AllOptionsComeBackIff` says exactly when all come back.
- A separator `--` with nothing behind it is meant to be removed, but stays when options were
  collected (`OptionParser.IdleSeparatorStays`), and only then
  (`OptionParser.IdleSeparatorStaysIff`). The parser is idempotent all the same
  (`OptionParser.ParseIsIdempotent`).
- Readers of one directory share a buffer, and one that starts to read refills it for all: another
  can miss a file that is there all the time (`SharedRead.EntryIsLost`). A reader gets its own
  listing exactly when what it is answered from has its next entry where it was
  (`SharedRead.OwnListingIff`, `SharedRead.ContinuesIff`).
- Reading an empty directory, one that does not even list `.` and `..`, is an error
  (`DirRead.ReadDirectory`).

## Model

| member | source | states |
|---|---|---|
| `PathLockRuns.HeldPathsStayTrue` | usr/src/lib/libfuse/common/fuse.c:424-817 | in every run, from grant to release, each returned path is the one the current tree gives for its directory and name, and the walk it came from still ends at the root |
| `PathLockRuns.TreelocksCountHolds` | usr/src/lib/libfuse/common/fuse.c:424-528 | in every run, a node's treelock is -1 exactly when one held path write-holds it and none read-holds it, and otherwise is the number of held paths through it |
| `PathLockRuns.FailedAcquireKeepsLocks` | usr/src/lib/libfuse/common/fuse.c:445-528 | a try for one path or for two that is not granted leaves every treelock as it was, wherever it failed |
| `PathLockRuns.GrantThenUnlock` | usr/src/lib/libfuse/common/fuse.c:424-443 | unlocking takes off exactly the locks a grant has put on |
| `PathLockRuns.RefctrsCountReferences` | usr/src/lib/libfuse/common/fuse.c:270-389 | in every run, refctr is positive and equals one if there are lookups, plus the nodes whose parent it is, plus the "." references under way |
| `PathLockRuns.NodesAreReferenced` | usr/src/lib/libfuse/common/fuse.c:309-327 | the nodes in the tables are exactly those with a lookup, a child or a "." reference: what is unreferenced has been freed, and nothing else |
| `PathLockRuns.DeletionStopsAtParent` | usr/src/lib/libfuse/common/fuse.c:270-327 | a forget frees at most the node and its one parent, dropping "." at most the node, and no other operation frees any |
| `PathLockRuns.StepDefined` | usr/src/lib/libfuse/common/fuse.c:424-817 | in every state that satisfies the invariant, each walk an enabled step makes ends and each node it looks at is there |
| `PathLockRuns.StepInv` | usr/src/lib/libfuse/common/fuse.c:340-817 | every step of every operation keeps the tree well formed, its counters exact, every held path true and every treelock equal to what is held |
| `PathLockRuns.RunInv` | usr/src/lib/libfuse/common/fuse.c:340-817 | the invariant holds in every state of every interleaving that starts from the root alone |
| `PathLockRuns.AssertsHold` | usr/src/lib/libfuse/common/fuse.c:309-319 | no assertion of delete_node, unref_node or unlock_path fails in any step |
| `PathLockRuns.RunsAreSafe` | usr/src/lib/libfuse/common/fuse.c:424-443 | every step that can come next in any run follows only pointers that lead somewhere and fails no assertion |
| `NodeHistory.StepFacts` | usr/src/lib/libfuse/common/fuse.c:340-817 | every step gives every node exactly the name and the number of lookups the operation is to give it, told from the request and what is found under a name, and changes no other node's |
| `NodeHistory.RenameMoves` | usr/src/lib/libfuse/common/fuse.c:783-817 | in every run, a rename that finds its node leaves that node under the new name and nothing under the old one; what was under the new name has none, every other node has its own, and no lookups change; without a node nothing changes |
| `NodeHistory.HideMoves` | usr/src/lib/libfuse/common/fuse.c:783-817 | so does hiding a node, unless the hidden name is taken; then nothing changes |
| `NodeHistory.LookupsCounted` | usr/src/lib/libfuse/common/fuse.c:354-389 | in every run, a node's nlookup is the number of lookups answered with it less those given up by forgets, and a node that is not there has none left |
| `NodeHistory.KnownStays` | usr/src/lib/libfuse/common/fuse.c:730-761 | so a node the kernel has looked up more often than it forgot it is there, under every interleaving |
| `NodeHistory.GrantedAsAsked` | usr/src/lib/libfuse/common/fuse.c:596-699 | in every run, an attempt that is granted adds a hold for each path asked for, in order, on the node of that name if it is to be changed; it then waits no longer |
| `NodeHistory.HeldPathLeads` | usr/src/lib/libfuse/common/fuse.c:424-528 | in every run, a held path, taken apart at its slashes and looked up name by name from the root, leads to the directory it was asked for |
| `PathTickets.TicketReserves` | usr/src/lib/libfuse/common/fuse.c:445-528 | a node that carries a ticket is locked by no operation with another, keeps its ticket, and blocks every path through it |
| `PathTickets.TryIs` | usr/src/lib/libfuse/common/fuse.c:445-528 | a path is granted exactly when nothing on its way is in use or reserved for another and the walk ends at the root, and is not found exactly when the walk ends elsewhere; granted it leaves no ticket on its way, not found it leaves its own on all of it |
| `PathTickets.AcquireIs` | usr/src/lib/libfuse/common/fuse.c:649-666 | the same for two paths, the second tried over the locks of the first |
| `PathTickets.ClearIff` | usr/src/lib/libfuse/common/fuse.c:445-528 | nothing stands in a path's way if and only if no held path changes a node on it, none uses the node it is to change, and no other ticket is on them |
| `PathTickets.GrantedIff` | usr/src/lib/libfuse/common/fuse.c:596-634 | in every run a single path is granted if and only if its way is clear in that sense and its walk ends at the root |
| `PathTickets.TicketsLiveIff` | usr/src/lib/libfuse/common/fuse.c:445-699 | a step keeps every ticket on a node that of a waiting operation if and only if it is no attempt, or the attempt must wait, or its walks end at the root (or have nothing on their way) and no node outside its ways carries its ticket |
| `PathTickets.TicketsLiveInRun` | usr/src/lib/libfuse/common/fuse.c:445-699 | in every run whose attempts all keep to that condition, every ticket on a node belongs to a waiting operation, and waiting operations have different tickets |
| `PathTickets.TicketStops` | usr/src/lib/libfuse/common/fuse.c:445-528 | a request whose way passes a node with the ticket of another waits |
| `PathTickets.DeadTicketStays` | usr/src/lib/libfuse/common/fuse.c:445-699 | in every run, a ticket no waiting operation has stays on its node as long as the node is there and the number is not given out again |
| `TicketRuns.RenamedAwayLeavesTicket` | usr/src/lib/libfuse/common/fuse.c:476-481 | a run from the root alone: the node a waiting operation has reserved is renamed away, the operation is granted without it, and the node, still in the tree, carries a ticket nobody waits with |
| `TicketRuns.FailedSecondLeavesTicket` | usr/src/lib/libfuse/common/fuse.c:659-664 | a run from the root alone: the first of two paths is granted, the second is not found, and the directory of the first, still in the tree, carries a ticket nobody waits with |
| `PathTickets.AbandonedStays` | usr/src/lib/libfuse/common/fuse.c:445-528 | no step by an operation with another ticket takes a ticket nobody waits with away |
| `NodeTree.UnhashTree` | usr/src/lib/libfuse/common/fuse.c:270-291 | unlinking keeps the tree well formed and its counts exact; only the parent can go, and only without lookups and unlinked |
| `NodeTree.HashTree` | usr/src/lib/libfuse/common/fuse.c:293-307 | linking an unlinked node below a directory whose walk does not pass it makes no cycle, keeps keys unique and counts exact |
| `NodeTree.UnrefTree` | usr/src/lib/libfuse/common/fuse.c:309-327 | dropping an accounted reference frees the node only when it has no lookups, no link and no children, and keeps all counts |
| `NodeTree.CreateTree` | usr/src/lib/libfuse/common/fuse.c:354-389 | a new node under a key not in use keeps the tree well formed |
| `NodeTree.ForgetTree` | usr/src/lib/libfuse/common/fuse.c:730-761 | giving up lookups, and with the last the name, keeps the tree well formed and its counts exact |
| `NodeTree.ChainUnique` | usr/src/lib/libfuse/common/fuse.c:424-443 | the walk from a node to the root is determined by the tree |
| `FuseNodes.Fuse.GetNode` | usr/src/lib/libfuse/common/fuse.c:208-218 | searching the id chain finds the node exactly when there is one with that id |
| `FuseNodes.Fuse.LookupNode` | usr/src/lib/libfuse/common/fuse.c:340-352 | searching the name chain gives the one node with that parent and name, and none exactly when there is none |
| `FuseNodes.Fuse.UnhashId` | usr/src/lib/libfuse/common/fuse.c:237-247 | the id chains hold every node but the removed one, in its own chain, once |
| `FuseNodes.Fuse.UnhashName` | usr/src/lib/libfuse/common/fuse.c:270-291 | the node is found in its chain, so the abort is out of reach; the chains agree again with the tree without its link |
| `FuseNodes.Fuse.HashName` | usr/src/lib/libfuse/common/fuse.c:293-307 | the chains agree with the tree in which the node has its new parent and name, the parent's counter included |
| `FuseNodes.Fuse.UnrefNode` | usr/src/lib/libfuse/common/fuse.c:309-327 | the node loses a reference and, with the last, its place in the id chains |
| `FuseNodes.Fuse.NextId` | usr/src/lib/libfuse/common/fuse.c:329-338 | with the counter wrapping at 32 bits, an id that is not in use, not zero and not the unknown one is found whenever fewer than 2^32 - 2 nodes exist |
| `FuseNodes.AllTaken` | usr/src/lib/libfuse/common/fuse.c:329-338 | a counter that meets no free id in one whole turn has seen every id there is |
| `FuseNodes.Fuse.AddNode` | usr/src/lib/libfuse/common/fuse.c:363-384 | a new node is in both kinds of chains, under an id that was free |
| `FuseNodes.Fuse.FindNode` | usr/src/lib/libfuse/common/fuse.c:354-389 | the node for the key, found or made, has one lookup more than before; all other nodes keep their lookups and names; the chains agree with the tree |
| `FuseNodes.Fuse.ForgetNode` | usr/src/lib/libfuse/common/fuse.c:730-761 | waits exactly when the last lookups of a locked node are given up, and otherwise does what the tree says of forgetting |
| `FuseNodes.Fuse.RemoveNode` | usr/src/lib/libfuse/common/fuse.c:763-781 | the named node, if there is one, loses its name; chains and tree still agree |
| `FuseNodes.Fuse.RenameNode` | usr/src/lib/libfuse/common/fuse.c:783-817 | the node has the new name, the one that was there has none, every other node its own, with lookups and locks as before; busy exactly when a hidden name is taken; the chains agree with the tree |
| `FuseNodes.AddName` | usr/src/lib/libfuse/common/fuse.c:391-422 | the name and its slash stand before what the buffer held, in the same or a larger buffer |
| `FuseNodes.Grow` | usr/src/lib/libfuse/common/fuse.c:395-415 | doubling ends with room for the name, and the path written so far is at the new end |
| `FuseNodes.PathBuffer.Add` | usr/src/lib/libfuse/common/fuse.c:391-422 | each added name goes in front of the path |
| `FuseNodes.PathBuffer.Finish` | usr/src/lib/libfuse/common/fuse.c:510-513 | the result is the path, or a slash when nothing was added |
| `FuseNodes.Fuse.UnlockPath` | usr/src/lib/libfuse/common/fuse.c:424-443 | each node from the directory up to the given end loses one reader, the write-locked node its lock, and the ticket rules are kept |
| `FuseNodes.Fuse.WalkUp` | usr/src/lib/libfuse/common/fuse.c:487-527 | the walk locks as it climbs and builds the path back to front: the string is "/" and the names from the root joined, or the failure leaves what the failed walk leaves |
| `FuseNodes.Fuse.GiveUp` | usr/src/lib/libfuse/common/fuse.c:521-527 | a walk that stops part of the way unlocks what it locked and stamps it with its ticket |
| `FuseNodes.Fuse.TryGetPath` | usr/src/lib/libfuse/common/fuse.c:445-528 | the fields change, and the path or the failure comes out, as the attempt on the tree says |
| `FuseNodes.Fuse.TryGetPath2` | usr/src/lib/libfuse/common/fuse.c:649-666 | both paths are granted, or the first is unlocked again and the failure is the one that happened |
| `FuseNodes.Fuse.FreePath` | usr/src/lib/libfuse/common/fuse.c:701-728 | the locks of the held path come off, and no others |
| `FuseRuns.RenameReady` | usr/src/lib/libfuse/common/fuse.c:783-817 | in every state that satisfies the invariant, a rename finds its node still linked after it has unlinked the one it replaces, and neither is the directory of the other path |
| `FuseRuns.Library.Do` | usr/src/lib/libfuse/common/fuse.c:208-817 | each operation is carried out on the tables exactly when it can be, and takes them to the protocol's next state with all chains in agreement: no check of the code fails and unhash_name does not abort |
| `FuseRuns.Serve` | usr/src/lib/libfuse/common/fuse.c:208-817 | any operations in a row, from the empty tables, make a run of the protocol, those that cannot be carried out left out, and chains and tree agree all the way |
| `ByteLocks.LockList.Insert` | usr/src/lib/libfuse/common/fuse.c:2980-3052 | for every list and range, each byte of the range has the requested type for the owner, every other byte and owner is as before, and the list is again sorted, disjoint, coalesced and without unlocked entries; what is left of earlier locks keeps its process, and the lock around the request has that of the request unless there was one around it before |
| `ByteLocks.LockList.Conflict` | usr/src/lib/libfuse/common/fuse.c:2954-2965 | a lock is returned if and only if some byte of the range is in conflict, and it is the first of the list that has such a byte |
| `ByteLocks.CanonicalIsUnique` | usr/src/lib/libfuse/common/fuse.c:2980-3052 | two such lists that lock the same bytes alike consist of the same intervals, so the list is determined by its meaning |
| `ByteLocks.InsertAll` | usr/src/lib/libfuse/common/fuse.c:2980-3052 | after any requests inserted one after the other each byte has, for each owner, the type last asked for it, and the list is canonical |
| `RwLock.NoLostWakeup` | usr/src/uts/common/fs/fusefs/fusefs_rwlock.c:53-216 | in every run, when the lock is free and threads are blocked, each blocked writer, or without one each blocked reader, has been notified and gets the lock when it runs |
| `RwLock.GrantedIff` | usr/src/uts/common/fs/fusefs/fusefs_rwlock.c:53-183 | in every run a thread that enters, tries or runs again after a wait gets the lock once more if and only if no other thread writes and, to read, no writer waits, and, to write, nobody has it; its own write hold never bars it; otherwise it waits, unless it only tried; nobody else gains or loses anything |
| `RwLock.ExitGivesBack` | usr/src/uts/common/fs/fusefs/fusefs_rwlock.c:186-216 | in every run an exit gives back one hold of that thread and nobody else's |
| `RwLock.StepInv` | usr/src/uts/common/fs/fusefs/fusefs_rwlock.c:53-216 | every step, the interrupted wait included, keeps writers apart from all others, forgets no blocked thread and never blocks the owner |
| `RwLock.RunInv` | usr/src/uts/common/fs/fusefs/fusefs_rwlock.c:53-216 | those invariants hold in every state of every run |
| `RwLock.FieldsMeanMonitor` | usr/src/uts/common/fs/fusefs/fusefs_rwlock.c:53-216 | in every run the count is the number of readers without an owner and minus the owner's depth with one, and waiters is the number of blocked writers |
| `RwLock.StepRefines` | usr/src/uts/common/fs/fusefs/fusefs_rwlock.c:53-216 | each section under the mutex changes the three fields as the lock they stand for changes |
| `RwLock.EnterRefines` | usr/src/uts/common/fs/fusefs/fusefs_rwlock.c:53-135 | the fields admit a thread exactly when it may have the lock, and otherwise it is blocked and counted |
| `RwLock.ExitRefines` | usr/src/uts/common/fs/fusefs/fusefs_rwlock.c:186-216 | leaving out the broadcast where no writer waits makes no difference |
| `RwLock.FusefsRwLock.constructor` | usr/src/uts/common/fs/fusefs/fusefs_rwlock.c:230-238 | a new lock is free and nobody waits |
| `RwLock.FusefsRwLock.EnterSig` | usr/src/uts/common/fs/fusefs/fusefs_rwlock.c:53-135 | the first pass through the loop grants the lock or blocks the thread, as the monitor does |
| `RwLock.FusefsRwLock.Resume` | usr/src/uts/common/fs/fusefs/fusefs_rwlock.c:73-127 | the pass after a wait does so too |
| `RwLock.FusefsRwLock.Interrupted` | usr/src/uts/common/fs/fusefs/fusefs_rwlock.c:79-121 | a thread whose wait is interrupted is no longer counted, and the code broadcasts exactly when that makes the monitor's next state, as it does for a writer that gives up |
| `RwLock.FusefsRwLock.TryEnterNow` | usr/src/uts/common/fs/fusefs/fusefs_rwlock.c:143-183 | grants exactly when entering would, and otherwise changes nothing |
| `RwLock.FusefsRwLock.ExitNow` | usr/src/uts/common/fs/fusefs/fusefs_rwlock.c:186-216 | one hold less, and the blocked threads are notified when it matters |
| `RwLock.FusefsRwLock.LockHeld` | usr/src/uts/common/fs/fusefs/fusefs_rwlock.c:219-226 | true exactly when somebody reads, or somebody writes |
| `NodeCache.ReferencesAccounted` | usr/src/uts/common/fs/fusefs/fusefs_node.c:296-461 | in every run until a break, v_count is the holds, plus one on the freelist, plus one in transit; a freelist node has no other holder; one hashed node per path; the total counts the nodes |
| `CacheHistory.AskerGetsNode` | usr/src/uts/common/fs/fusefs/fusefs_node.c:296-461 | in every run, a thread that looks a path up gets one more hold on the node of that path exactly when there is one; a thread that has built a node for a path gets one on the node that is then in the tree under it, its own or the one that was faster |
| `CacheHistory.HoldsCounted` | usr/src/uts/common/fs/fusefs/fusefs_node.c:296-461 | in every run, the holds on a node are the answers given out with it and the further holds taken, less those released |
| `CacheHistory.FreelistIsInOrder` | usr/src/uts/common/fs/fusefs/fusefs_node.c:573-588 | in every run the freelist is in the order in which its nodes were put there |
| `CacheHistory.OldestFirst` | usr/src/uts/common/fs/fusefs/fusefs_node.c:326-330 | so the node that is recycled or given back to the system is the one longest unused |
| `CacheHistory.SweepTakesMount` | usr/src/uts/common/fs/fusefs/fusefs_node.c:909-980 | a sweep takes every hashed node of the mount off the freelist and out of the tree, to be destroyed, and leaves every other node as it is |
| `CacheHistory.GivenUpEnds` | usr/src/uts/common/fs/fusefs/fusefs_node.c:475-592 | a node given up that nobody else has ends last on the freelist if it is in the tree and worth keeping, and is destroyed otherwise |
| `CacheHistory.ReclaimEnds` | usr/src/uts/common/fs/fusefs/fusefs_node.c:1147-1184 | a node taken to give memory back that nobody else has is destroyed |
| `CacheHistory.RecycleEnds` | usr/src/uts/common/fs/fusefs/fusefs_node.c:326-461 | a node taken for another path that nobody else has ends in the tree under that path, held once |
| `NodeCache.DisposedOnlyUnused` | usr/src/uts/common/fs/fusefs/fusefs_node.c:987-1007 | a node is destroyed or made over only unhashed, off the freelist, unheld, with the one reference of the thread that does it |
| `NodeCache.StepInv` | usr/src/uts/common/fs/fusefs/fusefs_node.c:475-734 | every step of lookup, release, recycle, reclaim, removal and table sweep that does not break the tree keeps the invariant |
| `NodeCache.RunInv` | usr/src/uts/common/fs/fusefs/fusefs_node.c:475-734 | so does every run, up to a state that breaks the tree |
| `NodeCache.BreaksIff` | usr/src/uts/common/fs/fusefs/fusefs_node.c:650-678 | a step takes a node out of a tree it is not in if and only if it is a section whose node nobody else has and which is no longer hashed, or a removal of a node that is not hashed |
| `NodeCache.RunBreaksIff` | usr/src/uts/common/fs/fusefs/fusefs_node.c:650-678 | in every run, a step does so if and only if it is such a section and a removal has come since its test, or a removal of a node that was removed before and has been held ever since |
| `NodeCache.OvertakenTestBreaks` | usr/src/uts/common/fs/fusefs/fusefs_node.c:505-521 | a run from the empty cache that takes a node out of a tree it is not in, because a removal overtook the test of RHASHED |
| `NodeCache.TwoRemovalsBreak` | usr/src/uts/common/fs/fusefs/fusefs_node.c:671-678 | another, in which no test is overtaken: two holders of a node remove it one after the other |
| `NodeCache.UndisturbedRunsHold` | usr/src/uts/common/fs/fusefs/fusefs_node.c:475-592 | in runs in which every removal finds its node hashed and overtakes no test, the tree is never broken and every test still holds when its section comes |
| `NodeCache.TestsStayTrue` | usr/src/uts/common/fs/fusefs/fusefs_node.c:505-521 | a step that is no removal of an unhashed or tested node breaks nothing and leaves every node a thread has found hashed in the tree |
| `NodeCache.FreeHashedIff` | usr/src/uts/common/fs/fusefs/fusefs_node.c:558-592 | a step keeps every node of the freelist in the tree if and only if it does not put a node on the list that nobody else has and that is no longer hashed |
| `NodeCache.FreelistIsHashedIff` | usr/src/uts/common/fs/fusefs/fusefs_node.c:65-75 | in every run, the nodes of the freelist have all been in the tree up to now if and only if no thread has put one there that was removed after it had decided to keep it |
| `NodeCache.LateRemovalStays` | usr/src/uts/common/fs/fusefs/fusefs_node.c:497-592 | a run from the empty cache, with nothing overtaken and nothing broken, that ends with a node on the freelist and not in the tree |
| `NodeCache.CleansHeldIff` | usr/src/uts/common/fs/fusefs/fusefs_node.c:497-550 | in every run, a thread frees the path of a node that somebody else holds if and only if it makes its test of RHASHED after the node was removed, and the node has been held since the removal |
| `NodeCache.PathFreedInUse` | usr/src/uts/common/fs/fusefs/fusefs_node.c:497-550 | a run from the empty cache, with nothing overtaken and nothing removed twice, in which that happens |
| `NodeCache.HeldInTreeIff` | usr/src/uts/common/fs/fusefs/fusefs_node.c:794-806 | in every run, a node somebody holds is in the tree, where a walk from it can start, if and only if it has not been removed and held ever since |
| `NodeCache.HeldOutsideTree` | usr/src/uts/common/fs/fusefs/fusefs_node.c:794-806 | a run from the empty cache after which a held node is not in the tree |
| `NodeCache.OnlyByItsThread` | usr/src/uts/common/fs/fusefs/fusefs_node.c:296-461 | only the thread that has a node in transit destroys it or makes it over, past its last look at v_count |
| `FreeList.Ring.constructor` | usr/src/uts/common/fs/fusefs/fusefs_node.c:475-592 | an empty ring |
| `FreeList.Ring.Add` | usr/src/uts/common/fs/fusefs/fusefs_node.c:571-591 | four pointer writes put the node last in the doubly linked ring, whatever it holds |
| `FreeList.Ring.Remove` | usr/src/uts/common/fs/fusefs/fusefs_node.c:603-619 | the node is gone, the others are in their order in both directions, and the head moves on if it was first |
| `NodeOrder.CmpIsLess` | usr/src/uts/common/fs/fusefs/fusefs_node.c:737-760 | the comparison is -1, 1 or 0 exactly as the paths are below, above or equal in lexicographic order |
| `NodeOrder.OneWay` | usr/src/uts/common/fs/fusefs/fusefs_node.c:737-760 | the order is irreflexive and asymmetric |
| `NodeOrder.Transitive` | usr/src/uts/common/fs/fusefs/fusefs_node.c:737-760 | the order is transitive |
| `NodeOrder.ExtensionIsLater` | usr/src/uts/common/fs/fusefs/fusefs_node.c:794-822 | no path that extends another comes before it |
| `NodeOrder.ExtensionsAreTogether` | usr/src/uts/common/fs/fusefs/fusefs_node.c:794-822 | between a path and one that extends it there are only paths that extend it |
| `NodeOrder.LeftForGood` | usr/src/uts/common/fs/fusefs/fusefs_node.c:794-822 | once the walk meets a path that does not extend the top, no descendant follows |
| `NodeOrder.Prune` | usr/src/uts/common/fs/fusefs/fusefs_node.c:794-822 | the walk invalidates what has a separator behind the path of the top; that is exactly what is below it if and only if the top is not the root, or whatever is valid below the root starts with a colon |
| `NodeOrder.UnderIsBelow` | usr/src/uts/common/fs/fusefs/fusefs_node.c:189-231 | for paths as the code builds them, a separator behind the path of a node is found exactly in the nodes below it, the root excepted, where it is found only in names that start with a colon |
| `NodeOrder.RootChildStays` | usr/src/uts/common/fs/fusefs/fusefs_node.c:794-822 | any other name in the root is below it and is passed over |
| `Symlink.CountComponents` | usr/src/lib/libfuse/modules/subdir.c:91-101 | the number of non-empty components |
| `Symlink.StripCommon` | usr/src/lib/libfuse/modules/subdir.c:103-114 | both strings lose the same leading components; what is left differs in its first component, or one is used up, or both are the same last component |
| `Symlink.TransformSymlink` | usr/src/lib/libfuse/modules/subdir.c:116-151 | the buffer holds the relative link exactly when the link is absolute, reaches as far as the base, something of the path is left and the result fits; otherwise it is unchanged |
| `Symlink.WriteRelative` | usr/src/lib/libfuse/modules/subdir.c:137-151 | moving the tail and writing the parent steps in place, overlapping as they may, gives the steps followed by the tail, terminated within the buffer |
| `SymlinkMeaning.KeepsMeaningIff` | usr/src/lib/libfuse/modules/subdir.c:116-151 | the relative link leads to the file the absolute link leads to if and only if the directories between the common part and the file have no dot components or the link climbs to the root anyway |
| `SymlinkMeaning.InsideBaseKeepsMeaning` | usr/src/lib/libfuse/modules/subdir.c:116-151 | a link that shares the whole base with a file whose own path has no dot components keeps its meaning, whatever the base |
| `SymlinkMeaning.RewrittenIff` | usr/src/lib/libfuse/modules/subdir.c:116-150 | with base and link written without needless slashes, a link is rewritten if and only if it leads below the base, the file is not itself on the way, and there is room |
| `SymlinkMeaning.DotInBaseMisleads` | usr/src/lib/libfuse/modules/subdir.c:125-135 | a defect: repeated slashes get a link past the test on the base's length, and a dot in the base then sends the rewritten link elsewhere |
| `SymlinkMeaning.ReadLink` | usr/src/lib/libfuse/modules/subdir.c:154-166 | reading any link of a file whose path has no dot components leaves a link to the same place in the buffer |
| `SymlinkMeaning.AddPathComponents` | usr/src/lib/libfuse/modules/subdir.c:30-51 | the joined path names the base's components and then the file's |
| `SymlinkMeaning.AddPathToNothing` | usr/src/lib/libfuse/modules/subdir.c:30-51 | with an empty base the file's path stays, and the root becomes the current directory |
| `SymlinkMeaning.WalkIs` | usr/src/lib/libfuse/modules/subdir.c:116-151 | following components drops what they climb over and then adds what they name, from any directory |
| `SymlinkMeaning.ThereAndBack` | usr/src/lib/libfuse/modules/subdir.c:137-151 | going down a path and up as often ends where it began exactly when the path has no dots or began at the root, and otherwise above |
| `SymlinkMeaning.FollowRelative` | usr/src/lib/libfuse/modules/subdir.c:137-151 | the rewritten string leads up the given number of directories and then along the rest |
| `OptionLists.SplitAdded` | usr/src/lib/libfuse/common/fuse_opt.c:112-134 | splitting the string built option by option gives the list back, leading empty options apart |
| `OptionLists.AllOptionsComeBackIff` | usr/src/lib/libfuse/common/fuse_opt.c:112-134 | all options come back if and only if the first is not empty or there is only one |
| `OptionLists.EmptyOptionIsLost` | usr/src/lib/libfuse/common/fuse_opt.c:112-134 | an empty option before any other one is lost |
| `OptionLists.Rebuilt` | usr/src/lib/libfuse/common/fuse_opt.c:112-134 | a built string is built again from its own options |
| `OptionLists.ReadBack` | usr/src/lib/libfuse/common/fuse_opt.c:289-315 | an escaped option is read back as it was, whatever it contains and whatever follows |
| `OptionLists.Backslashes` | usr/src/lib/libfuse/common/fuse_opt.c:306-311 | any character behind a backslash is taken as it is, and a backslash at the end stands for itself |
| `OptionLists.SplitAtComma` | usr/src/lib/libfuse/common/fuse_opt.c:289-315 | the text before an unescaped comma is one option, and the rest is split on |
| `OptionParser.OptContext.AddOpt` | usr/src/lib/libfuse/common/fuse_opt.c:112-134 | the option, escaped or not, stands behind the others with a comma between |
| `OptionParser.OptContext.ProcessRealGroup` | usr/src/lib/libfuse/common/fuse_opt.c:289-315 | splitting in place, with the writing never ahead of the reading, hands on exactly the options of the text in order and stops at the first that is refused |
| `OptionParser.CopyChar` | usr/src/lib/libfuse/common/fuse_opt.c:306-311 | a character, or an escaped one without its backslash, moves to the end of the option; the text still to be read is untouched |
| `OptionParser.OptContext.InsertArg` | usr/src/lib/libfuse/common/fuse_opt.c:69-83 | appending to the array and moving the arguments behind the place by one leaves the argument at its place and the others in their order |
| `OptionParser.OptContext.CallProc` | usr/src/lib/libfuse/common/fuse_opt.c:151-166 | what is kept, by its key or by the callback, goes to the options or the arguments; what is dropped or refused changes nothing; a discard or keep key does not reach the callback |
| `OptionParser.OptContext.ProcessOne` | usr/src/lib/libfuse/common/fuse_opt.c:331-352 | one step of the parse, groups with their text in the next argument and the separator included |
| `OptionParser.OptContext.OptParse` | usr/src/lib/libfuse/common/fuse_opt.c:354-379 | the loop gives what sorting the arguments as a whole gives, or fails exactly when that fails |
| `OptionParser.Parse` | usr/src/lib/libfuse/common/fuse_opt.c:381-406 | on success the arguments are replaced by the output, on an error and for an empty list they are left alone |
| `OptionParser.ParseIsIdempotent` | usr/src/lib/libfuse/common/fuse_opt.c:331-406 | parsing the output of a parse succeeds and changes nothing, for every callback and every accepted list of arguments |
| `OptionParser.ParseAsks` | usr/src/lib/libfuse/common/fuse_opt.c:331-352 | the parse keeps what the callback keeps and fails exactly if it refuses anything, asked of each option of a group as an option, of each argument before the separator as an option exactly if it starts with a dash, and of each behind it as no option |
| `OptionParser.OptionsOnly` | usr/src/lib/libfuse/common/fuse_opt.c:331-352 | a callback that drops whatever is no option leaves, of the arguments before the separator, exactly those that start with a dash, and none behind it |
| `OptionParser.OneArgument` | usr/src/lib/libfuse/common/fuse_opt.c:331-352 | a single argument, such as a mount point, is kept, dropped or refused as the callback says of it under that key |
| `OptionParser.SortArgs` | usr/src/lib/libfuse/common/fuse_opt.c:331-352 | arguments that are neither groups nor the separator stay in their order |
| `OptionParser.SortAttached` | usr/src/lib/libfuse/common/fuse_opt.c:335-337 | a group with text attached adds the options of that text |
| `OptionParser.SortSpaced` | usr/src/lib/libfuse/common/fuse_opt.c:338-344 | a group without takes those of the next argument, and without a next one the parse fails |
| `OptionParser.SortBehind` | usr/src/lib/libfuse/common/fuse_opt.c:345-349 | behind the first separator everything is left as it is |
| `OptionParser.SortedArgs` | usr/src/lib/libfuse/common/fuse_opt.c:331-352 | neither a group nor a separator is among the other arguments |
| `OptionParser.IdleSeparatorStaysIff` | usr/src/lib/libfuse/common/fuse_opt.c:354-379 | a separator with nothing behind it is still the last argument if and only if options were collected |
| `OptionParser.IdleSeparatorStays` | usr/src/lib/libfuse/common/fuse_opt.c:354-379 | p -ox -- becomes p -o x -- |
| `OptionParser.StaysRefused` | usr/src/lib/libfuse/common/fuse_opt.c:331-379 | once something was refused the whole parse is refused |
| `DirRecords.ReadRecord` | usr/src/lib/libfuse/common/fuse_ll_doorsvc.c:106-125 | the next offset, the name's length and the name are read from a record as they were written |
| `DirRecords.PackAt` | usr/src/lib/libfuse/common/fuse_ll_doorsvc.c:101-125 | each record of the buffer stands where the one before says it does |
| `DirRecords.ValueOfBytes` | usr/src/lib/libfuse/common/fuse_ll_doorsvc.c:116-118 | a number that fits is read back as it was stored |
| `DirRecords.Size` | usr/src/lib/libfuse/common/fuse_ll_doorsvc.c:41-45 | the room of a record is the least multiple of eight that holds header and name |
| `DirStream.AddDirent` | usr/src/lib/libfuse/common/fuse_ll_doorsvc.c:106-125 | header, name and padding stand at the place, and nothing before it is touched |
| `DirStream.IsDotsIff` | usr/src/lib/libfuse/common/fuse_ll_doorsvc.c:687-689 | exactly the names . and .. are handed on without being looked up |
| `DirStream.DirHandle.ExtendContents` | usr/src/lib/libfuse/common/fuse.c:2615-2638 | doubling, and the jump to the largest size, end with enough room, and keep what the buffer held |
| `DirStream.DirHandle.FillDir` | usr/src/lib/libfuse/common/fuse.c:2640-2688 | the buffer holds the records of one entry more, the last pointing behind itself |
| `DirStream.DirHandle.Fill` | usr/src/lib/libfuse/common/fuse_ll_doorsvc.c:652-663 | the buffer holds exactly the records of the directory, whatever it held before |
| `DirStream.DirHandle.Readdir` | usr/src/lib/libfuse/common/fuse_ll_doorsvc.c:643-729 | at offset 0 the directory is read again, otherwise the records kept are used; whatever stands at the offset is taken for a record: the answer is the name and next offset found there, and whether the next is behind the end |
| `DirStream.ReplyAtRecord` | usr/src/lib/libfuse/common/fuse_ll_doorsvc.c:643-729 | at the start of a record the answer is that entry, the offset of the next and whether it is the last, and at the end it is the end |
| `DirRead.CallReaddir` | usr/src/uts/common/fs/fusefs/fusefs_calls.c:371-429 | for any offset, what the bytes there mean comes through with its name and next offset, or the error says why not |
| `DirRead.FetchRecord` | usr/src/uts/common/fs/fusefs/fusefs_calls.c:371-429 | at the start of a record that is its entry if it can be read, and otherwise an error; behind the last it is the end |
| `DirRead.ReadVDir` | usr/src/uts/common/fs/fusefs/fusefs_vnops.c:2224-2360 | one read, from any offset, moves out what the bytes from there on mean; out of range it changes nothing |
| `DirRead.Reclen` | usr/src/uts/common/fs/fusefs/fusefs_vnops.c:2296-2296 | the room an entry takes is the least multiple of eight that holds header, name and its end, and at most that of the longest name |
| `DirRead.ReadEntries` | usr/src/uts/common/fs/fusefs/fusefs_vnops.c:2280-2351 | the loop, for any room and any starting offset |
| `DirRead.ReadFromRecord` | usr/src/uts/common/fs/fusefs/fusefs_vnops.c:2280-2351 | from the start of a record one read moves out entries in order, each with the offset of the next and the last with 0, never beyond the room there is, and stops at the end, for lack of room, or at an entry that cannot be read |
| `DirRead.ReadDirectory` | usr/src/uts/common/fs/fusefs/fusefs_vnops.c:2224-2360 | reads in a row by one reader, of any sizes and with the directory changing meanwhile, give the entries it had at first, each once and in order; all of them if and only if there is one and every one can be read |
| `SharedRead.CallFor` | usr/src/lib/libfuse/common/fuse_ll_doorsvc.c:643-729 | a call by any of the readers that share a handle takes the buffer and that reader to the next state, and leaves the other readers alone |
| `SharedRead.OwnListingIff` | usr/src/lib/libfuse/common/fuse_ll_doorsvc.c:643-729 | after any calls of any readers, a reader has got the entries of a listing, one a call, in order and to the end, if and only if each of its calls was answered from records that have the next entry where it was; otherwise it has failed or got something else, for good |
| `SharedRead.RestComesIff` | usr/src/lib/libfuse/common/fuse_ll_doorsvc.c:643-729 | a reader gets the rest of its listing out of other bytes if and only if every entry left stands there where it did |
| `SharedRead.ContinuesIff` | usr/src/lib/libfuse/common/fuse_ll_doorsvc.c:643-729 | if a record of the new listing starts where the reader stands, that is so if and only if the names from there on are the same |
| `SharedRead.SameNamesForAll` | usr/src/lib/libfuse/common/fuse_ll_doorsvc.c:643-729 | if everyone who starts to read after a reader finds the same names, that reader gets them all, whatever the order of the calls |
| `SharedRead.EntryIsLost` | usr/src/lib/libfuse/common/fuse_ll_doorsvc.c:648-663 | a file that is there all the time is not listed to a reader, because the one before it was removed and another reader started |
| `InterruptRuns.InterruptsAreConserved` | usr/src/lib/libfuse/common/fuse_lowlevel.c:1000-1079 | in every run each interrupt is waiting, under way to its own request, delivered to it, absorbed by its like, or sent back |
| `InterruptRuns.NoneWaitsForActive` | usr/src/lib/libfuse/common/fuse_lowlevel.c:1000-1079 | in no run does an interrupt wait while its request is on the list |
| `InterruptRuns.CallbackIsCalled` | usr/src/lib/libfuse/common/fuse_lowlevel.c:1373-1384 | an interrupted request's callback has been called once nobody holds the request's lock, whichever of the two came first |
| `InterruptHistory.CallbackIsLast` | usr/src/lib/libfuse/common/fuse_lowlevel.c:1373-1384 | in every run a listed request has the callback that was registered for it last |
| `InterruptHistory.LastIsCalled` | usr/src/lib/libfuse/common/fuse_lowlevel.c:1373-1384 | so the callback registered last for an interrupted request has been called once nobody holds the request's lock |
| `InterruptHistory.MarkedMeansInterrupt` | usr/src/lib/libfuse/common/fuse_lowlevel.c:1013-1021 | in every run a request is marked as interrupted only if an interrupt meant for it has reached it |
| `InterruptHistory.InterruptMeets` | usr/src/lib/libfuse/common/fuse_lowlevel.c:1000-1057 | in every run an interrupt whose request is listed goes to it; otherwise it is absorbed if one like it waits, and waits last in the list if not |
| `InterruptHistory.ArrivalMeets` | usr/src/lib/libfuse/common/fuse_lowlevel.c:1059-1079 | in every run a new request is marked if and only if its interrupt waited, which is then delivered; otherwise the first that waits is sent back, and the others keep their order |
| `InterruptHistory.PendingInOrder` | usr/src/lib/libfuse/common/fuse_lowlevel.c:1059-1079 | in every run the waiting interrupts are in the order in which they came, so the one sent back came first |
| `InterruptRuns.CalledMeansInterrupted` | usr/src/lib/libfuse/common/fuse_lowlevel.c:1013-1021 | no callback is called for a request that was not interrupted |
| `InterruptRuns.ReplacedIsNotCalled` | usr/src/lib/libfuse/common/fuse_lowlevel.c:1373-1384 | in every run, once another callback or none has been registered for a request, the one registered before is never called again, by any thread |
| `InterruptRuns.CountsAreUsers` | usr/src/lib/libfuse/common/fuse_lowlevel.c:103-116 | a request is in memory exactly as long as it is listed or being delivered to, and its count is the number of those |
| `InterruptRuns.DestroyedOnce` | usr/src/lib/libfuse/common/fuse_lowlevel.c:97-116 | a request that has been destroyed never comes back, so none is destroyed twice |
| `InterruptRuns.NoUseAfterFree` | usr/src/lib/libfuse/common/fuse_lowlevel.c:1004-1028 | in no run does a thread touch a request that has been destroyed, although it is answered while interrupts are being delivered |
| `InterruptRuns.StepInv` | usr/src/lib/libfuse/common/fuse_lowlevel.c:1000-1079 | every step of arrival, interrupt, delivery, registration and reply keeps the invariant |
| `InterruptRuns.RunInv` | usr/src/lib/libfuse/common/fuse_lowlevel.c:1000-1079 | the invariant holds in every state of every interleaving |
| `InterruptRuns.Service.Do` | usr/src/lib/libfuse/common/fuse_lowlevel.c:1000-1079 | each step is carried out by the code's sections, exactly when it can be: the lists become those of the protocol's next state, and so do the threads, the calls made, the requests destroyed and the interrupts sent back, all taken from what the sections return |
| `InterruptRuns.Serve` | usr/src/lib/libfuse/common/fuse_lowlevel.c:1000-1079 | any steps in a row make a run of the protocol, those that cannot be taken left out, and the lists and threads are those of its last state |
| `Interrupts.Connection.CheckInterrupt` | usr/src/lib/libfuse/common/fuse_lowlevel.c:1059-1079 | the request's own interrupt is taken off the list if it is there, and otherwise the oldest, which is handed back |
| `Interrupts.Connection.Process` | usr/src/lib/libfuse/common/fuse_lowlevel.c:1505-1513 | the request joins the end of the list, marked if its interrupt was waiting |
| `Interrupts.Connection.FindInterrupted` | usr/src/lib/libfuse/common/fuse_lowlevel.c:1000-1037 | the first active request with that number gets a reference; without one, an identical waiting interrupt is looked for |
| `Interrupts.Connection.DoInterrupt` | usr/src/lib/libfuse/common/fuse_lowlevel.c:1039-1057 | the lists change as the protocol's step says, and the result tells which case it was |
| `Interrupts.Connection.Put` | usr/src/lib/libfuse/common/fuse_lowlevel.c:1023-1026 | one reference less, and with the last the request is gone |
| `Interrupts.Connection.ListDel` | usr/src/lib/libfuse/common/fuse_lowlevel.c:80-86 | the request is off the list and the others keep their order |
| `Interrupts.Connection.FreeReq` | usr/src/lib/libfuse/common/fuse_lowlevel.c:103-116 | the request is off the list, without callback, and one reference less |
| `Handles.Node.constructor` | usr/src/uts/common/fs/fusefs/fusefs_vnops.c:190-338 | a node nobody has open |
| `Handles.Node.Open` | usr/src/uts/common/fs/fusefs/fusefs_vnops.c:190-338 | reuses the handle when it is of the session and has the rights, else opens one and closes the one it replaces; a file's handle may write exactly if one of the opens since the file was last closed for good asked to write or truncate; the errors, exactly when they happen, change nothing |
| `Handles.Node.NewHandle` | usr/src/uts/common/fs/fusefs/fusefs_vnops.c:290-313 | after the exchange the daemon has just the new handle open for the node |
| `Handles.Node.ReleFid` | usr/src/uts/common/fs/fusefs/fusefs_vnops.c:426-478 | with the last open, and only then, the handle is closed as the kind it was opened, unless its session has ended |
| `Handles.Node.Inactive` | usr/src/uts/common/fs/fusefs/fusefs_vnops.c:1200-1208 | opens nobody closed are closed with one close |
| `Handles.Node.Restart` | usr/src/uts/common/fs/fusefs/fusefs_vnops.c:243-262 | a new session keeps the opens and knows that their handle is gone |
| `Handles.Serve` | usr/src/uts/common/fs/fusefs/fusefs_vnops.c:190-338 | after any opens, closes, releases and restarts at most one handle is open, as recorded; none if nothing is open; and opens balance with closes, those lost with a session, and the open one |
| `Handles.Balance` | usr/src/uts/common/fs/fusefs/fusefs_vnops.c:190-338 | in any conversation that closes only what is open, as it was opened, each opened handle was closed once, lost, or is open |

## Left out

- Door calls, marshalling and dispatch: what goes through a door is modelled where it carries state (directory replies, handles), not as bytes.
- Mounting, unmounting, sessions, signals, helper programs, module loading and the compatibility entry points.
- The attribute cache and its timeouts, access checks, zones, `statvfs`, reading and writing file data.
- Deadlock: whether two-path locking can deadlock is not examined, nor is any other liveness than the wakeups of the reader/writer lock and the tickets.
- Memory exhaustion: every allocation succeeds.
- Path locking: the kernel is taken to keep a directory named by a request alive, to forget no more lookups than it made, and to let renames and removals of one name not overlap, so that an operation acts on the node it has locked; `noforget` is off. Directory paths and buffers stay below 4 GiB.
- Tickets: the number given to an operation is not that of one that still waits; that the counter of 32 bits comes round while an operation waits is not examined.
- FuseRuns.Library.Do: an operation whose paths would not fit the 32-bit sizes, or that would need an id when all are in use, is not carried out.
- Lists: the list of byte-range locks, the hash chains, the lists of requests and interrupts and the queue of waiting operations are sequences, where the code relinks cells in place; aliasing of cells is modelled for the ring of the free list alone.
- FuseNodes.Fuse.NextId: needs a free id, fewer than 2^32 - 2 nodes, as the loop in the code does not end otherwise.
- ByteLocks.LockList.Insert: ranges start no later than they end, as the conversion from the kernel's form makes them; the caller's wait for a conflicting lock is not modelled.
- Node cache: its steps are modelled on values, with the AVL tree as the set of hashed nodes and the free list as a sequence; only the ring of the free list is also modelled in place. The lock of the tree makes each of its sections one step. The locks of directories are not modelled: any holder of a node may remove it at any time.
- NodeOrder.Prune: starts at a node that is in the tree, which the code does not test; where a walk leads that starts at a node taken out of the tree depends on stale links and is not modelled. A file with a colon in its name counts as a stream of the file whose name ends before the colon, as the path alone does not tell them apart.
- Reader/writer lock: threads are numbers, the mutex makes each section one step, and a reader that enters again while a writer waits is treated as any other.
- SymlinkMeaning.ReadLink: the link is followed by its components alone; directories that are themselves symbolic links are not followed.
- Options: the option table with its templates and formats is not modelled, a callback that keeps, drops or refuses each option is, and so are the keys with which a table entry keeps or discards one without asking; the callback does not change the arguments collected so far.
- Directories: a file system whose listing fails is not modelled. The buffer stays within 2 GiB. The fixed size of the reply's name field is not modelled. `DIRENT64_RECLEN` is the one of illumos, for a name that starts at byte 18.
- DirStream.DirHandle.FillDir: the mode in which the file system supplies offsets of its own (`off` other than 0 in the filler) is not modelled.
- DirStream.DirHandle.Readdir: an offset inside a record, where what looks like a record runs past the bytes written, is left out: the code reads on behind them.
- DirRead.CallReaddir: an offset at which the code would read behind the bytes written is left out.
- SharedRead.CallFor: nor does a call of a reader that shares the handle come to such an offset; the functions it is proved against do, and say that such a reader fails.
- DirRead.ReadEntries: reads that come to such an offset are left out.
- DirRead.ReadVDir: reads that come to such an offset are left out; the copy to the caller's buffer always succeeds, and inode numbers and attributes of the entries are left out.
- Interrupts: the two mutexes are modelled by their sections; a request is answered, and registers its callback, in one thread.
- Handles: one node is modelled. The daemon gives out no handle that is open, and not the unused one; a close is carried out; the type of the file does not change in the middle of an open. Credentials kept for the handle are left out.
