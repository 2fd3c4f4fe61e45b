# SimGrid: verified models of its DAG loaders, tracing, DAX processor and small protocols

This project models, in Dafny, six components of SimGrid and proves what they promise, over every input, every
interleaving and every run.

* **DAG loaders** (`Graphs`, `Activities`, `DaxGraph`, `TransferNames`, `DaxReader`, `DaxExpansion`, `LoadNames`,
  `DaxLoader`, `DotLoader`). A heap of activities with links on both sides; the mark-based backward sweep that looks for cycles; the
  DAX tag handlers; the duplication of each shared file into one transfer per producer and consumer; the anchoring on
  root and end. The central results: the expansion keeps exactly the declared precedence between jobs, the sweep answers
  exactly "acyclic" and terminates, so `Load` returns a non-empty graph if and only if what the document declares is
  acyclic.
* **Bounded buffer** (`BoundedBuffer`). Any number of producers and consumers, one atomic step at a time, with two
  semaphores, a mutex and a ring. Safety in every interleaving, a bound on every run, and termination of all threads if
  and only if `C <= P <= C + BufferSize`. Every item of every producer is inserted in order and removed at most once.
* **Tracing** (`TraceBuffer`, `Variables`, `Containers`). The event buffer and its dumps, utilisation variables, and
  the tree of containers with its name index and the lines written about containers.
* **DAX processor** (`Scanner`, `DaxAutomaton`, `DaxDtd`, `TextBuffers`, `DaxProcessor`, `DaxTags`, `DaxDocument`). The in-place refill of
  the scanner buffer under longest-match scanning, the tag automaton, the text and index stacks, and the three
  together: which documents are accepted and what the handlers are called with. `DaxDocument` joins processor and
  loader: an accepted document loads as the graph that its tags, by their places and attributes, declare.
* **Run-once tasks** (`Tasks`). Move-only slots holding a callable inline or on the heap, including calls whose body
  uses the tasks again.
* **Pointer normaliser** (`Pointers`). Renaming of addresses as a canonical form.

Code that updates state is modelled by classes and loops proved against functions or predicates on values; the lemmas
are about those. Pointers are addresses (`Id`) into a map of live objects. Times, sizes and amounts are `real`.

## Where code and documentation disagree

The models follow the code; the difference is stated by a lemma or a contract.

* Transfer names: `loaders.cpp` line 39 promises unique names. All loads of given jobs have unique names exactly when the
  jobs have different names, no parent's name (root or a job) continues another one across an underscore, and no child's
  name (a job or end) ends with another one; documents without a cycle already need it when there are two jobs or more
  (`NamesDistinctIff`), and a single job is settled by `OneJobDistinctIff`. `NamesClash` gives two failing documents,
  one of them with different ids and equal names.
* DOT edges: an edge with a size becomes a transfer unless its name is that of a node or of an earlier edge; then it is
  dropped with a warning. All sized edges are kept between their ends exactly when names tell the ends (`EdgesKeptIff`,
  `EdgeLost`), and each has a transfer of its own and of its own size exactly when no two share a name
  (`OwnTransfersIff`): of parallel sized edges only the first one is kept, even between plain names.
* Utilisation variables: the key is the resource name followed by the variable name, and of variables that share one only
  the first is ever set: all are set exactly when no two share a key (`AllTracedIff`). This is a latent hazard of
  `instr_event` (`KeysClash`). The platform only traces `speed_used` and `bandwidth_used`, whose keys never meet,
  whatever the resources are called, so all its variables are set (`PlatformTraced`).
* Utilisation over time: the comment promises that the initial setting makes the later additions meaningful. A call whose
  interval starts before the first recorded use of its variable and is not over then is lost while the setting is still
  buffered (`ReplayWrong`). A replay of the trace is right exactly when what is lost adds up to zero (`ReplayIs`,
  `ReplayRightIff`, `LostNothingIff`); dumps, forced or not, do not harm.
* The DTD requires a root element. The processor also accepts the XML declaration alone, since end of file in the state
  expecting the root has no rule and counts as success (`AcceptsIffDocument`).
* The DTD gives `version` of `adag` the default "1.0"; the loader refuses every version but 2.1, so a conforming document
  that relies on the default is refused (`DefaultVersionRefused`, and `EmptyRefused` for a whole document).
* The DTD gives `count`, `index`, `name`, `jobCount`, `fileCount` and `childCount` of `adag` the default "0"; the
  processor gives them offset 0 of the text buffer, the empty string. All other defaults agree (`DefaultsAgreeIff`).
* Containers: one created with an empty type name is registered but neither attached nor traced, so tree, index and trace
  agree after a creation exactly when a type name is given; a refused creation has already been attached and traced
  (`Containers.Registry.NewChild` states exactly when that does no harm), except for zones (`NewZone`). The empty type
  name is a latent hazard: in the repository only zones pass one, and they attach and trace themselves.
* Trace order: a closed run prints the stable sort of its events exactly when no event is created, dumped, and followed by
  the creation of an earlier one (`ClosedRunSortsIff`). The simulation clock does not ensure it: the forced dump at a
  container's destruction prints events ahead of their time, and an earlier one may still come (`ClockNotEnough`).
  Under the clock only such dumps can spoil the order (`ClockedOrderlyIff`).
* Tasks: assigning a task to itself is safe exactly when it is empty, on the heap, or trivially destructible
  (`Tasks.Pool.MoveSelf`).
* `normalize-pointers.py` announces `0X0000001` for the first address and so on; the k-th different address, counted from
  zero, gets the number k and never the one announced (`NamesFromZero`). As a text, the
  output is a canonical form of the inputs whose literals do not hold `0X` (`CanonicalText`). Without that condition it is
  not: the output of an input with addresses is itself an input, without addresses, that is printed alike
  (`OutputIsFixed`).

## Model

| member | source | states |
|---|---|---|
| Activities.ActivityGraph.AddSuccessor | src/dag/loaders.cpp:204-206 | Adds one edge, on both sides; refuses a self edge and a duplicate, changing nothing; links stay recorded once on both ends |
| Activities.ActivityGraph.Destroy | src/dag/loaders.cpp:231 | Removes the activity and exactly its incident edges |
| Activities.ActivityGraph.Exits | src/dag/loaders.cpp:54-56 | The first layer is exactly the executions without successor |
| Activities.ActivityGraph.Visit | src/dag/loaders.cpp:62-75 | Visiting one predecessor keeps the sweep invariant: transfers marked by their consumer, executions queued when all successors are marked |
| Activities.ActivityGraph.SweepLayer | src/dag/loaders.cpp:59-76 | One layer keeps the sweep invariant and forgets no activity that could be marked |
| Activities.ActivityGraph.CheckForCycle | src/dag/loaders.cpp:50-82 | True if and only if the graph is acyclic; marks exactly the activities that reach no cycle; terminates on every graph |
| Activities.SweepVerdict | src/dag/loaders.cpp:58-81 | When the queue is empty, the marked activities are exactly those that reach no cycle, and all are marked iff the graph is acyclic |
| Activities.LayerBounded | src/dag/loaders.cpp:58-79 | There are no more layers than activities, although an activity can be queued several times |
| DaxGraph.ExpansionPreservesPrecedence | src/dag/loaders.cpp:198-252 | A job reaches another in the expanded graph iff it does in the declared graph of jobs, files and control edges |
| DaxGraph.ExpansionPreservesAcyclicity | src/dag/loaders.cpp:198-260 | The expanded graph is acyclic iff the declared one is |
| DaxGraph.BetweenRootAndEnd | src/dag/loaders.cpp:237-252 | In an acyclic expansion every job and transfer lies on a path from root to end |
| TransferNames.TransferCount | src/dag/loaders.cpp:198-232 | A file with producers P and consumers C yields exactly max(1,P) * max(1,C) transfers |
| LoadNames.NamesDistinctIff | src/dag/loaders.cpp:39-48 | All loads of a list of jobs have pairwise distinct transfer names iff the jobs' names differ, no parent's name continues another across an underscore and no child's name ends with another; the acyclic loads need the same unless there is exactly one job |
| LoadNames.OneJobDistinctIff | src/dag/loaders.cpp:39-48 | The acyclic loads of one job have distinct names iff its name does not both continue root and end with end |
| LoadNames.TellingDistinct | src/dag/loaders.cpp:40-48 | With telling names, transfers of the same name are the same |
| LoadNames.NotTelling | src/dag/loaders.cpp:198-241 | Otherwise there is a loadable document with two transfers of the same name in every layout, so in whatever is left of it, acyclic for two jobs or more |
| LoadNames.LoadedNamesDistinct | src/dag/loaders.cpp:237-241 | In what the loader leaves of such a document, different transfers have different names |
| LoadNames.PlainNamesTell | src/dag/loaders.cpp:39-48 | Ids and names without underscore, and jobs of different names, are enough |
| LoadNames.NamesClash | src/dag/loaders.cpp:39-48 | Two acyclic documents whose transfer names clash in every layout, one with unambiguous-looking ids, one with two jobs of equal name |
| DaxReader.AddParentDeclares | src/dag/loaders.cpp:456-468 | A parent adds exactly one control edge between the two jobs looked up |
| DaxReader.UseAddedSize | src/dag/loaders.cpp:418-428 | A file keeps the size of its first use |
| DaxExpansion.ExecutionsAre | src/dag/loaders.cpp:391-405 | In what is loaded, root and end are executions without amount, and job i is an execution named id@name with amount runtime * 4.2e9 |
| DaxExpansion.TransfersAre | src/dag/loaders.cpp:224-241 | In what is loaded, a transfer has exactly its two links, the name of its parent, its file and its child joined by underscores, and the size of the first use of the file in the document |
| DaxExpansion.FilesGo | src/dag/loaders.cpp:198-232 | A file is transferred exactly from each job with an output use of it, or root if there is none, to each job with an input use of it, or end |
| DaxExpansion.ParentsFirst | src/dag/loaders.cpp:440-468 | Every parent listed under a child is linked to it, an id meaning the first job that has it |
| DaxLoader.Loader.STagAdag | src/dag/loaders.cpp:381-389 | Goes on iff the version is 2.1; nothing else changes |
| DaxLoader.Loader.STagJob | src/dag/loaders.cpp:391-405 | The activities stand for the document with one more job, the current one, named id@name with amount runtime * 4.2e9; a repeated id keeps its first job |
| DaxLoader.Loader.NeedFile | src/dag/loaders.cpp:418-428 | A file has its communication afterwards: the one made at its first use, with that size |
| DaxLoader.Loader.STagUses | src/dag/loaders.cpp:407-437 | The activities stand for the document with one more use; fails exactly on a repeated use of a file in the same direction |
| DaxLoader.Loader.STagChild | src/dag/loaders.cpp:440-449 | Fails exactly on an unknown job; otherwise that job becomes current |
| DaxLoader.Loader.STagParent | src/dag/loaders.cpp:456-468 | Adds the control edge; fails exactly on an unknown job, the child itself, or a parent already listed |
| DaxLoader.Loader.Read | src/dag/loaders.cpp:188 | Reads a whole document, failing exactly when it is not loadable |
| DaxLoader.Loader.MakeTransfer | src/dag/loaders.cpp:224-227 | Adds one transfer between its two ends, with the name and size of the file |
| DaxLoader.Loader.DuplicateFile | src/dag/loaders.cpp:198-232 | One transfer for each pair of a producer or root and a consumer or end; then the file is gone |
| DaxLoader.Loader.DuplicateFiles | src/dag/loaders.cpp:198-232 | All files are duplicated, in any order, and none is left |
| DaxLoader.Loader.AnchorExec | src/dag/loaders.cpp:245-250 | Links to root an execution without predecessor and to end one without successor |
| DaxLoader.Loader.NameTransfer | src/dag/loaders.cpp:237-241 | Renames a transfer after its two ends and nothing else |
| DaxLoader.Loader.AnchorAll | src/dag/loaders.cpp:237-252 | Every execution is anchored and every transfer named, whatever their order |
| DaxLoader.Loader.Expand | src/dag/loaders.cpp:198-252 | From the document read to its complete, named and anchored expansion |
| DaxLoader.Loader.DestroyAll | src/dag/loaders.cpp:257-259 | Nothing is left of a cyclic document |
| DaxLoader.Loader.Load | src/dag/loaders.cpp:172-263 | Succeeds iff the document is loadable; the result is non-empty iff the declared graph is acyclic, and is then the complete, named, anchored expansion, with the amount of each job, no amount for root and end, and the first size of each file; otherwise nothing is left |
| DotLoader.AnchoringVerdict | src/dag/loaders.cpp:343-368 | The anchored graph is acyclic iff the graph read is, nothing precedes root and nothing follows end |
| DotLoader.OnlyRootAndEnd | src/dag/loaders.cpp:343-370 | In an accepted graph root is the only source, end the only sink, and everything lies on a path between them |
| DotLoader.GraphRead | src/dag/loaders.cpp:316-338 | Transfers are exactly the first sized edges of each name that is no node's; links are exactly the edges without a size |
| DotLoader.SizesAre | src/dag/loaders.cpp:281-294 | A node is known by its name, with the size first given for it |
| DotLoader.TransfersAre | src/dag/loaders.cpp:323-334 | The transfers are exactly the sized edges whose name src->dst is neither a node's nor that of an earlier sized edge, under that name |
| DotLoader.LoadedAre | src/dag/loaders.cpp:266-339 | What is loaded, said of the file: one execution per node and one communication per such edge, with name and amount, linked exactly as the edges say |
| DotLoader.ReadableIff | src/dag/loaders.cpp:335-337 | The edges are read iff those without a size are no loops and differ in their ends |
| DotLoader.EdgesKeptIff | src/dag/loaders.cpp:323-334 | Every sized edge is kept between its ends iff no sized edge has the name of a node or of a sized edge between other ends |
| DotLoader.OwnTransfersIff | src/dag/loaders.cpp:323-334 | Every sized edge has its own transfer of its own size iff no sized edge has the name of a node or of another sized edge |
| DotLoader.TakenNameDropped | src/dag/loaders.cpp:332-334 | An edge whose name is taken, a parallel one for instance, leaves no trace |
| DotLoader.PlainNamesTell | src/dag/loaders.cpp:324-326 | Node names without `>` tell the ends of edges |
| DotLoader.EdgeLost | src/dag/loaders.cpp:323-334 | Two edges between different ends with the same name; the second is dropped |
| DotLoader.EndsApart | src/dag/loaders.cpp:295-304 | A root or end that is no node takes no part in the graph read |
| DotLoader.Loader.CreateNode | src/dag/loaders.cpp:281-294 | One execution per node name, with its name and first size |
| DotLoader.Loader.FindEnd | src/dag/loaders.cpp:296-299 | The node of that name, or a new execution of that name and no amount |
| DotLoader.Loader.SetEnds | src/dag/loaders.cpp:295-304 | Root and end are the nodes of these names, or new executions that are no node's |
| DotLoader.Loader.Connect | src/dag/loaders.cpp:327-330 | A new communication with its name and size, linked between two executions and to nothing else |
| DotLoader.Loader.CreateTransfer | src/dag/loaders.cpp:327-331 | One transfer with the name and size of its edge, between its two ends |
| DotLoader.Loader.CreateEdge | src/dag/loaders.cpp:316-338 | The activities stand for the graph with one more edge, names and sizes included; fails exactly on a self link or a repeated link |
| DotLoader.Loader.CreateEdges | src/dag/loaders.cpp:306-339 | The activities stand for the graph read, edge by edge; fails exactly when the graph does not |
| DotLoader.Loader.Anchor | src/dag/loaders.cpp:348-356 | One activity gets a predecessor unless it is root and a successor unless it is end |
| DotLoader.Loader.AnchorAll | src/dag/loaders.cpp:346-357 | Adds only edges from root to what has no predecessor and from what has no successor to end, and leaves no other source and no other sink |
| DotLoader.Loader.Enclose | src/dag/loaders.cpp:341-357 | Root first, end last, everything anchored, names and sizes kept |
| DotLoader.Loader.Load | src/dag/loaders.cpp:266-371 | Succeeds iff links are no loops and differ; the result is non-empty iff the graph read is acyclic, nothing enters a node called root and nothing leaves a node called end; then anchored, with the names and sizes of nodes and edges |
| BoundedBuffer.NoOverwrite | examples/sthread/pthread-producer-consumer.c:29-42 | A producer about to write never overwrites an item still to be removed |
| BoundedBuffer.ReadsOldest | examples/sthread/pthread-producer-consumer.c:43-57 | A consumer about to read finds the oldest item not yet removed |
| BoundedBuffer.InvNext | examples/sthread/pthread-producer-consumer.c:29-57 | Every step of every thread keeps the invariant |
| BoundedBuffer.RunInv | examples/sthread/pthread-producer-consumer.c:29-57 | Every reachable state satisfies the invariant |
| BoundedBuffer.Safety | examples/sthread/pthread-producer-consumer.c:29-57 | In every interleaving: the k-th removal is the k-th insertion, empty + full + threads in flight is the buffer size, at most one thread in the critical section |
| BoundedBuffer.ItemsOnce | examples/sthread/pthread-producer-consumer.c:29-57 | In every interleaving each producer inserts its items 0, 1, 2, ... in this order, exactly as many as it has written; no item is inserted or removed twice |
| BoundedBuffer.AllDelivered | examples/sthread/pthread-producer-consumer.c:29-57 | Once all threads are finished, exactly the items asked of the producers are inserted and as many removed as asked of the consumers; all of them, once each, when these agree |
| BoundedBuffer.RunCounts | examples/sthread/pthread-producer-consumer.c:29-57 | Each step uses one of a fixed number of steps left |
| BoundedBuffer.RunBounded | examples/sthread/pthread-producer-consumer.c:29-57 | No run has more than six steps per item |
| BoundedBuffer.StuckIsFinishedIff | examples/sthread/pthread-producer-consumer.c:29-57 | A reachable state without progress has all threads finished iff C <= P <= C + BufferSize |
| BoundedBuffer.RunToStuck | examples/sthread/pthread-producer-consumer.c:29-57 | Every run extends to a maximal one |
| BoundedBuffer.TerminationIff | examples/sthread/pthread-producer-consumer.c:29-57 | Every maximal run ends with all threads finished iff C <= P <= C + BufferSize |
| BoundedBuffer.MainFinishesIff | examples/sthread/pthread-producer-consumer.c:86-103 | The same for the thread counts, equal shares and initial values set up by main |
| TraceBuffer.InsertAllSorts | src/instr/instr_paje_trace.cpp:43-61 | Inserting events in creation order sorts them stably by time stamp |
| TraceBuffer.StableSortUnique | src/instr/instr_paje_trace.cpp:43-61 | There is only one stable sort of a collection of events |
| TraceBuffer.NothingLost | src/instr/instr_paje_trace.cpp:17-61 | In any run, printed plus buffered events are the created ones, each once |
| TraceBuffer.PrintedIff | src/instr/instr_paje_trace.cpp:17-40 | An event is printed iff a dump that is forced or reaches its time comes after its creation |
| TraceBuffer.OrderlyIff | src/instr/instr_paje_trace.cpp:17-61 | No create, dump, create triple out of order iff no event is ever created behind a printed one |
| TraceBuffer.OrderlyRunSorts | src/instr/instr_paje_trace.cpp:17-61 | In an orderly run, printed followed by buffered is the sorted sequence at every moment |
| TraceBuffer.ClosedRunSortsIff | src/instr/instr_paje_trace.cpp:17-61 | A run closed by a forced dump prints the stable sort iff no event is created, dumped, and followed by the creation of an earlier one |
| TraceBuffer.ClockedOrderlyIff | src/instr/instr_paje_containers.cpp:83-85 | With dump times that never decrease and events not before the last dump, the order is kept iff nothing printed ahead by a forced dump is overtaken; without forced dumps it always is |
| TraceBuffer.ClockNotEnough | src/instr/instr_paje_containers.cpp:83-85 | A run that keeps the clock and prints its events out of order |
| TraceBuffer.Trace.InsertIntoBuffer | src/instr/instr_paje_trace.cpp:43-61 | The backward scan and insertion is insertion after the last event not later |
| TraceBuffer.Trace.DumpBuffer | src/instr/instr_paje_trace.cpp:17-40 | Prints and erases exactly the due prefix, or everything when forced or time independent; nothing when disabled |
| Variables.AllTracedIff | src/instr/instr_paje_types.cpp:69-74 | In the printed and buffered events of any history, every variable used is set iff no two share a key |
| Variables.PlatformTraced | src/instr/instr_platform.cpp:371-382 | With the two variable names of the platform no two keys meet, so every variable used is set |
| Variables.NetIsInUse | src/instr/instr_paje_types.cpp:62-93 | The effects of all events up to t add up to the values whose interval contains t, for calls in any order and any dumps |
| Variables.NotTraced | src/instr/instr_paje_types.cpp:72-74 | A variable whose key was first used by another one is never set |
| Variables.Traced | src/instr/instr_paje_types.cpp:72-77 | The first variable under a key is set once, to zero, at its first use; what stands before it in the trace is exactly what is lost |
| Variables.MissedInsert | src/instr/instr_paje_trace.cpp:43-61 | An event is missed iff it is earlier than the setting of its variable and that is still buffered |
| Variables.ReplayIs | src/instr/instr_paje_types.cpp:62-93 | Replaying printed and buffered events gives, from the first use on, the values in use minus what is lost, under any dumps, forced ones included; before that, or without owning the key, nothing |
| Variables.ReplayRightIff | src/instr/instr_paje_types.cpp:64-67 | The replay is right iff what is lost adds up to zero |
| Variables.LostNothingIff | src/instr/instr_platform.cpp:370-383 | For positive values nothing is lost iff no call reaches from before the first use of its variable over it while its setting is buffered |
| Variables.InOrderLosesNothing | src/instr/instr_paje_types.cpp:62-78 | Calls made in the order of their start lose nothing |
| Variables.ReplayWrong | src/instr/instr_platform.cpp:370-383 | Two calls out of order and a wrong replay |
| Variables.NothingLeft | src/instr/instr_paje_types.cpp:76-77 | After the last interval the value is 0 |
| Variables.VariableTracer.NewEvent | src/instr/instr_paje_types.cpp:80-93 | One event of the given kind and time enters the trace buffer |
| Variables.VariableTracer.InstrEvent | src/instr/instr_paje_types.cpp:62-93 | The events of the call join the trace, whatever is already printed |
| Variables.VariableTracer.Dump | src/instr/instr_paje_trace.cpp:17-40 | The trace is that of the history with one more dump, forced or not |
| Variables.KeysClash | src/instr/instr_paje_types.cpp:72-74 | A latent hazard of `instr_event`: two variables of different resources with the same key |
| Containers.IndexIsReachable | src/instr/instr_paje_containers.cpp:48-116 | The name index holds exactly the containers reachable from the root through children |
| Containers.MentionedWhileAlive | src/instr/instr_config.cpp:226-261 | In a well-formed trace, a line mentioning a non-root container lies between its create and destroy lines |
| Containers.LifetimesNest | src/instr/instr_paje_containers.cpp:73-88 | A container is created after its parent and destroyed before it |
| Containers.ToldFlush | src/instr/instr_paje_trace.cpp:22-27 | Printing all buffered events keeps the trace well formed |
| Containers.ToldDestroy | src/instr/instr_config.cpp:246-261 | Destroying a childless container after a flush keeps the trace well formed, with or without destruction lines |
| Containers.DestroyLinesAre | src/instr/instr_config.cpp:246-261 | Destroyed containers other than the root have one line each, in the order of destruction, or none when none is wanted |
| Containers.Registry.ByNameOrNull | src/instr/instr_paje_containers.cpp:95-99 | Finds a live container of that name iff there is one |
| Containers.Registry.NewRoot | src/instr/instr_paje_containers.cpp:21-34 | The zone without parent becomes the root; no line |
| Containers.Registry.NewChild | src/instr/instr_paje_containers.cpp:48-71 | Refused iff the name is taken; otherwise sound iff a type name is given; after a refusal sound iff there is no type name, or no destruction lines are wanted and the parent has a child of that name |
| Containers.Registry.NewZone | src/instr/instr_paje_containers.cpp:21-34 | A zone is registered before it is attached, so a refusal changes nothing |
| Containers.Registry.Issue | src/instr/instr_paje_trace.cpp:43-61 | Events on live containers keep tree, index and trace sound |
| Containers.Registry.Dump | src/instr/instr_paje_trace.cpp:28-38 | Prints exactly the first buffered events, in order, and keeps the trace well formed |
| Containers.Registry.DestroyChild | src/instr/instr_paje_containers.cpp:77-78 | Destroying one more child removes exactly its subtree and leaves the rest of the tree as it was |
| Containers.Registry.DestroySelf | src/instr/instr_paje_containers.cpp:80-87 | The container leaves the index after its children; the buffer is printed before its line |
| Containers.Registry.Destroy | src/instr/instr_paje_containers.cpp:73-88 | Destroys exactly the subtree, each container once, children before parents, after flushing the buffer |
| Containers.Registry.RemoveFromParent | src/instr/instr_paje_containers.cpp:109-116 | Removes exactly the subtree and its names, each container destroyed once, children first; the parent loses that child and every other container is as before; what is left is one indexed tree with a well-formed trace |
| Scanner.TokensJoin | src/dag/dax_dtd.c:2103-2136 | The tokens of a text, put together, are the text |
| Scanner.FirstToken | src/dag/dax_dtd.c:2103-2145 | The first token is accepted, no longer prefix is, and the rest is cut in the start condition that it sets |
| Scanner.BestAtJam | src/dag/dax_dtd.c:2114-2136 | After a jam no longer match exists |
| Scanner.Scanner.constructor | src/dag/dax_dtd.c:3515-3539 | A new buffer of any positive size is empty and closed by two end-of-buffer characters |
| Scanner.Scanner.MoveDown | src/dag/dax_dtd.c:3204-3208 | The in-place move copies the current token to the start, whatever the overlap |
| Scanner.Scanner.Grow | src/dag/dax_dtd.c:3219-3252 | The growth loop terminates with room to read, keeps the token, at most doubles what is needed, and the size and its two end characters fit a 32-bit int for tokens under half of one |
| Scanner.Scanner.Input | src/dag/dax_dtd.c:1924-1953 | Reads some characters, none only at the end of the file |
| Scanner.Scanner.ReadMore | src/dag/dax_dtd.c:3210-3267 | Reads after the kept text, with room for it; nothing more once the end of file is pending |
| Scanner.Scanner.Close | src/dag/dax_dtd.c:3299-3303 | Two end-of-buffer characters follow the data |
| Scanner.Scanner.GetNextBuffer | src/dag/dax_dtd.c:3172-3306 | Matched text, buffer and unread file stay the same text; the three answers tell exactly whether more was read, text is left, or the file is over; the extension by half is never needed |
| Scanner.Scanner.PreviousState | src/dag/dax_dtd.c:3310-3333 | Matching again gives the state and the last accepting position in the moved buffer |
| Scanner.Scanner.AtEndOfBuffer | src/dag/dax_dtd.c:3035-3137 | A refill in the middle of a token leaves the match where it was |
| Scanner.Scanner.Match | src/dag/dax_dtd.c:2103-2145 | Finds the longest match of what is left of the file, stopped only by the end-of-buffer characters |
| Scanner.Scanner.NextToken | src/dag/dax_dtd.c:3035-3140 | Returns the longest match and advances by it; stops iff nothing is left |
| Scanner.Scanner.ReadAll | src/dag/loaders.cpp:176-188 | The tokens are those of the flat file, for any initial buffer size and any cutting of reads |
| DaxAutomaton.FitsIffContent | src/dag/dax.dtd:2-33 | The start conditions follow exactly the content models |
| DaxAutomaton.RunNode | src/dag/dax_dtd.c:2377-2895 | Every conforming element is read through, leaving start-condition stack and index stack as found |
| DaxAutomaton.Advance | src/dag/dax_dtd.c:2377-2895 | Each event that is not rejected carries a conforming document one event further, and nothing crashes |
| DaxAutomaton.AcceptsIffDocument | src/dag/dax_dtd.c:2912-3033 | Accepted: the declaration alone, or followed by adag(job*, child*) with job(uses*) and child(parent*); nothing else |
| DaxAutomaton.OnEveryPrefix | src/dag/dax_dtd.c:2377-2895 | At most three open elements, inext = 1 + 2 * depth, and uses and parent handlers always have their current job or child |
| TextBuffers.NothingRewritten | src/dag/dax_dtd.c:1674-1752 | While a buffer is open, nothing written before it changes |
| TextBuffers.PopRestores | src/dag/dax_dtd.c:1740-1752 | Push, any well-nested run, pop: text and index stacks are as before |
| TextBuffers.TextBuffers.CheckLimit | src/dag/dax_dtd.c:1688-1699 | There is room for one more character and the text is kept |
| TextBuffers.TextBuffers.PutChar | src/dag/dax_dtd.c:1683-1699 | Appends one character, within bounds |
| TextBuffers.TextBuffers.PutString | src/dag/dax_dtd.c:1717-1737 | Appends a string and its null character and tells where it is |
| TextBuffers.TextBuffers.PushBuffer | src/dag/dax_dtd.c:1740-1745 | Records the current end of the text |
| TextBuffers.TextBuffers.PopBuffer | src/dag/dax_dtd.c:1747-1752 | Restores the recorded end of the text |
| TextBuffers.TextBuffers.ReadString | src/dag/dax_dtd.c:1560-1562 | A reader of a stored string gets it back, up to its first null character |
| TextBuffers.CStringIff | src/dag/dax_dtd.c:1560-1562 | What is read of a string is its longest prefix without a null character |
| DaxProcessor.LiteralsStored | src/dag/dax_dtd.c:2057-2064 | The default literals are exactly at the offsets 1, 35, 77, 153, 157 and 161 |
| DaxProcessor.KeptPush | src/dag/dax_dtd.c:2519-2533 | Opening an element leaves the attribute strings of the open ones in place and gives its own the default values |
| DaxProcessor.KeptAttribute | src/dag/dax_dtd.c:2535-2598 | Storing one more attribute leaves all others in place |
| DaxProcessor.KeptPop | src/dag/dax_dtd.c:2632-2640 | Closing an element leaves the attribute strings of the outer ones and the literals in place |
| DaxProcessor.DefaultsAgreeIff | src/dag/dax.dtd:2-33 | The default of a text attribute is the one the DTD declares iff it is none of six of `adag`, which are empty instead of "0" |
| DaxProcessor.TextIff | src/dag/dax.dtd:2-33 | The text attributes of the processor are exactly those that the DTD declares |
| DaxProcessor.OptionsIff | src/dag/dax.dtd:24-27 | The values taken for an enumerated attribute are exactly those that the DTD lists |
| DaxProcessor.RequiredIff | src/dag/dax.dtd:2-33 | The attributes that must be given are exactly the required ones of the DTD |
| DaxProcessor.ChoicesStart | src/dag/dax.dtd:24-27 | Enumerated attributes start with the default that the DTD declares, or with none |
| DaxProcessor.ProperIff | src/dag/dax_dtd.c:2535-2612 | A start tag is proper iff its attributes are declared with allowed values, no text attribute is repeated and all required ones are there, in terms of the DTD |
| DaxProcessor.LastChoiceWins | src/dag/dax_dtd.c:2777-2842 | Of an enumerated attribute given several times, the last one counts |
| DaxProcessor.Processor.StoreText | src/dag/dax_dtd.c:2535-2598 | One text attribute is stored and its offset recorded; all other strings stay in place |
| DaxProcessor.Processor.ReadAttributes | src/dag/dax_dtd.c:2535-2598 | Fails iff an attribute is unknown, has a value it does not enumerate, or is a repeated text attribute; otherwise texts are stored and choices recorded |
| DaxProcessor.Processor.Missing | src/dag/dax_dtd.c:2600-2612 | An offset of 0 means exactly that a required attribute was not given |
| DaxProcessor.Processor.PushElement | src/dag/dax_dtd.c:2519-2533 | The attributes of a new element have their default offsets and the outer strings stay in place |
| DaxProcessor.Processor.ReadValues | src/dag/dax_dtd.c:1560-1636 | A handler reads the values given in the start tag, or the defaults |
| DaxProcessor.Processor.CallStart | src/dag/loaders.cpp:391-458 | The handler gets exactly the texts and choices of the innermost start tag; its current job or child is there |
| DaxProcessor.Processor.OpenTag | src/dag/dax_dtd.c:2377-2387 | A start tag is taken iff it is allowed here and its attributes are proper |
| DaxProcessor.Processor.CloseTag | src/dag/dax_dtd.c:2632-2641 | The innermost element is closed and the outer strings stay in place |
| DaxProcessor.Processor.Step | src/dag/dax_dtd.c:2212-2918 | Each token does what the automaton does and makes the calls it asks for |
| DaxProcessor.Processor.StepBegin | src/dag/dax_dtd.c:2600-2606 | A start tag is taken iff allowed here with proper attributes; the step is that of the automaton |
| DaxProcessor.Processor.StepEmpty | src/dag/dax_dtd.c:2608-2618 | Same for an empty-element tag, with both handlers called |
| DaxProcessor.Processor.StepFinish | src/dag/dax_dtd.c:2632-2642 | An end tag is taken iff it closes the innermost element |
| DaxProcessor.CallsPlace | src/dag/dax_dtd.c:2600-2642 | The calls of a tag come right after those of the tags before it: start handler, end handler, or both for an empty-element tag |
| DaxProcessor.Processor.Lex | src/dag/dax_dtd.c:2249-3033 | Returns 0 iff the document conforms or is the declaration alone; the handlers are then called in document order with the texts and choices written in it or their defaults |
| DaxDocument.DocumentCalls | src/dag/loaders.cpp:381-489 | The handler calls of an accepted document are none, or that of the root element followed by exactly those of the jobs, files, children and parents it describes, in order |
| DaxTags.GivenText | src/dag/dax_dtd.c:1560-1636 | The handler of a start tag gets exactly the text that the tag gives |
| DaxTags.DefaultText | src/dag/dax_dtd.c:2519-2533 | Without a text given, the handler gets the default one |
| DaxTags.GivenLink | src/dag/loaders.cpp:415 | A file is an input iff the last link given in its tag is "input" |
| DaxTags.SaysOnce | src/dag/loaders.cpp:391-489 | Tags say at most one document |
| DaxDocument.DocumentSays | src/dag/loaders.cpp:391-489 | The document read is exactly the one the tags say: the k-th job tag gives job k with the id, name and runtime written, the file tags up to the next job its files with the size and link written, and likewise children and parents |
| DaxDocument.ReadableIff | src/dag/loaders.cpp:381-415 | The handlers can read their numbers iff the tags give version 2.1 and numbers as runtimes and sizes |
| DaxDocument.CheckReadable | src/dag/loaders.cpp:381-415 | True iff every handler call can read its numbers and has version 2.1 |
| DaxDocument.LoadCalls | src/dag/loaders.cpp:381-489 | Making the handler calls of a document of the right version loads what they declare |
| DaxDocument.CreateFromTags | src/dag/loaders.cpp:172-263 | From tags to graph: succeeds iff the document conforms, its root element if any has version 2.1, all runtimes and sizes given are numbers, and what the tags say is loadable; the handlers were then called as the tags say, the result is non-empty iff what the tags say is acyclic, and is its complete, named, anchored expansion |
| DaxDocument.DefaultVersionRefused | src/dag/dax.dtd:6 | A root element without a version has the default of the DTD, which the loader does not take |
| DaxDocument.EmptyRefused | src/dag/loaders.cpp:381-389 | A document with an empty root element and no version conforms, declares something loadable, and is refused |
| Tasks.DoAccounted | include/xbt/functional.hpp:131-237 | Every operation, nested calls included, keeps one owner for each callable and releases it once |
| Tasks.RunOnce | include/xbt/functional.hpp:131-237 | After any program a callable is in exactly one slot or released exactly once, invoked at most once, and released if no slot is left |
| Tasks.CreateMeans | include/xbt/functional.hpp:170-223 | A new callable is in its new slot and nothing else changes |
| Tasks.MoveMeans | include/xbt/functional.hpp:147-167 | A move leaves the callable in the target and the source empty, releases exactly what was in the target, and touches no other slot |
| Tasks.DropMeans | include/xbt/functional.hpp:140-143 | Dropping a slot releases exactly its callable |
| Tasks.CallMeans | include/xbt/functional.hpp:228-237 | A call empties its slot, invokes that callable before anything else and releases it last; a call of an empty task only fails |
| Tasks.ThereAndBack | include/xbt/functional.hpp:147-167 | A callable moved to a new task and back is where it was, and nothing was released |
| Tasks.Pool.Init | include/xbt/functional.hpp:170-223 | Inline and heap construction look the same from outside: the new callable is held by its slot, all other slots hold what they held |
| Tasks.Pool.Clear | include/xbt/functional.hpp:131-135 | Destroys the callable and frees its heap cell |
| Tasks.Pool.Take | include/xbt/functional.hpp:149-154 | Moved or copied as bytes, the callable ends in the target cell and the source is empty |
| Tasks.Pool.MoveInto | include/xbt/functional.hpp:147-155 | Move construction: the new slot holds the callable of the source, the source holds none, all other slots hold what they held |
| Tasks.Pool.MoveOver | include/xbt/functional.hpp:157-167 | Move assignment releases the callable of the target, which then holds that of the source; the source holds none, all other slots hold what they held |
| Tasks.Pool.MoveSelf | include/xbt/functional.hpp:157-167 | Self assignment loses the callable, and is sound iff it is not an inline one with a destructor |
| Tasks.Pool.Destroy | include/xbt/functional.hpp:140-143 | Dropping a slot releases its callable; all other slots hold what they held |
| Tasks.Pool.Start | include/xbt/functional.hpp:228-237 | A call empties its slot before the callable runs |
| Tasks.Pool.Finish | include/xbt/functional.hpp:173-180 | The callable is destroyed after the call, wherever it was stored |
| Tasks.Pool.Perform | include/xbt/functional.hpp:131-237 | Each operation does what it does on optional callables, whatever the storage |
| Tasks.Pool.PerformCall | include/xbt/functional.hpp:228-237 | A callable may use the tasks, its own slot included, while it runs |
| Tasks.Pool.RunProgram | include/xbt/functional.hpp:131-237 | Over a whole program the storage is unobservable, each destructor that matters runs exactly once, and no heap cell is leaked |
| Pointers.SplitShape | tools/normalize-pointers.py:25-35 | Literals hold no address; addresses are `0x` and hexadecimal digits |
| Pointers.SplitJoins | tools/normalize-pointers.py:25-37 | Literals and addresses put together are the text |
| Pointers.CutIff | tools/normalize-pointers.py:25-35 | The parts are the only ones that take, from left to right, the leftmost `0x` followed by one of 0123456789abcdef, with all such digits after it |
| Pointers.NamesDiffer | tools/normalize-pointers.py:31 | The format `0X%07d` gives different names to different numbers |
| Pointers.NameIff | tools/normalize-pointers.py:31 | A name is the only string of its format: `0X`, the number in decimal, filled with zeros to seven digits and with none beyond |
| Pointers.NumberIs | tools/normalize-pointers.py:30-31 | An address met for the first time has the number of different addresses before it, and keeps it |
| Pointers.RenamedSame | tools/normalize-pointers.py:29-33 | Renaming addresses one to one does not change the names given |
| Pointers.NamesFromZero | tools/normalize-pointers.py:8-33 | The k-th different address, counted from zero, gets the number k, never the announced k + 1 |
| Pointers.PiecesAre | tools/normalize-pointers.py:32-37 | Literals and names are printed in turn, the last literal at the end |
| Pointers.BlanksAre | tools/normalize-pointers.py:32-37 | Two pieces are separated by one blank, unless the first one ends with white space that is no blank |
| Pointers.CanonicalForm | tools/normalize-pointers.py:25-37 | Two inputs are printed in the same pieces iff their literals agree and a bijection maps the addresses of the one to those of the other |
| Pointers.TextTells | tools/normalize-pointers.py:32-37 | The printed text, blanks included, tells its pieces when no literal holds `0X` |
| Pointers.CanonicalText | tools/normalize-pointers.py:25-37 | Inputs whose literals do not hold `0X` are printed as the same text iff their literals agree and a bijection maps their addresses |
| Pointers.OutputIsFixed | tools/normalize-pointers.py:25-37 | What is printed holds no address and is printed again as it is |
| Pointers.Print | tools/normalize-pointers.py:32-33 | One more piece, after a blank unless the line is new or the last piece ends in white space other than a blank |
| Pointers.Search | tools/normalize-pointers.py:25-35 | Finds the leftmost address and takes it as long as possible |
| Pointers.Register | tools/normalize-pointers.py:30-31 | The table knows the next address afterwards, under the name of its first occurrence |
| Pointers.Normalize | tools/normalize-pointers.py:25-37 | The loop prints the text of the canonical form, blanks and final newline included |

## Left out

- A second DAX load in one process: the static `result`, `jobs` and `files` are not cleared; the model is of one load.
- How `std::stod` reads a number: a function given to the model reads it, or fails; what it takes for a number is not modelled.
- Character data, comments, processing instructions and the DFA tables of the scanner: the automaton takes tags, and the scanner takes any matching automaton that accepts every single character.
- Scanner.Scanner.Grow: does not model what happens after the overflow of a 32-bit size, which the contract excludes for tokens under 2^30 characters; C leaves it undefined.
- Scanner.Scanner.NextToken: does not model the null character written after the current token and taken back, nor tokens given back to the input.
- Scanner.Scanner.Input: does not model read errors and interrupted reads.
- TextBuffers.TextBuffers.PushBuffer: does not model the size of the index stack, whose reallocation is too small but is never reached at depth three.
- DaxLoader.Loader.Load: files and dependencies are kept in sorted containers; the model takes them in any order.
- DotLoader.Loader.Load: requires that the ends of each edge are nodes, as graphviz ensures; graphviz itself, `atof` and the sorting of edges are left out.
- `create_DAG_from_json`, file opening, logging, and starting the activities.
- BoundedBuffer.MainFinishesIff: threads are all there from the start, their output is on, and an item also carries its producer.
- Containers.Registry.Issue: the place of the event in the buffer is arbitrary, which covers every time stamp.
- Containers.Registry.NewRoot: one root in a run; a second zone without parent is not modelled.
- The text of trace lines, time-independent traces, links and states: printers with no reader.
- Tasks.Pool.Perform: arguments, results and exceptions of the callables are not modelled; operations on slots that do not exist are skipped.
- The storage test `canSBO` and the tuple `apply` of `functional.hpp`: pure and small; a callable is small or not, and both cases are covered.
