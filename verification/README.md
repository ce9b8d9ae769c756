# Models of the FTS kernel

These Dafny modules model the parts of the FTS kernel that compile, allocate, serialise and index, and prove what
those parts are for.  `dafny verify dfyconfig.toml` checks everything.

| modules | what they model |
|---|---|
| `DspTraversal`, `DspPatch`, `DspGraph`, `SignalProgram`, `DspMeaning` | the DSP graph compiler: the iterator that looks through thru objects, the graph of a patch, scheduling by predecessor counters, signal buffers by reference count, inserted sums, and what the emitted calls compute |
| `Ftl`, `DspRun` | FTL programs: sizing, compiling to words and running them; and a tick of a compiled graph down to the samples of one shared buffer |
| `BmaxCode`, `BmaxMachine`, `BmaxPatcher`, `BmaxLoad`, `BmaxRebuilt` | the bmax file format: the recursive code generator, the three-stack machine that loads the code, and the round trip of a nested patcher |
| `Dumper` | dumping object graphs with sharing and cycles as lines, and loading them |
| `FtlMem` | the relocating memory of FTL data: bump allocation with hole reuse, handles, and the copying relocation |
| `Connections` | connections threaded through a list at each end, changing port counts, and redefinition of objects |
| `Client` | the wire protocol with its two symbol caches |
| `MidiFile`, `Fifo` | tracks of Standard MIDI Files (variable-length quantities, running status, block buffers), and the single-writer single-reader fifo under the MIDI queue |
| `Hashtable` | chained hash tables, their iterators, and the two passes that allocate signals |
| `Expression` | the evaluator of parse trees on a framed stack |
| `Bytes`, `Sets` | byte operands and cardinalities |

Where the C code updates objects in place, the model is a class whose methods make the same updates in the same
order, each proved against a function of the old state; the main results are lemmas about those functions.  Linked
lists, stacks and growing arrays are fields of type `seq`; memory that is written in place by index is an `array` in
`Ftl`, `DspRun` and `MidiFile`.

The central results: a compiled graph computes its dataflow meaning in every tick, sample by sample, on shared and
reused buffers (`DspRun.EveryTickComputes` and `DspPatch.TickComputesPatch`, from `DspMeaning.CompiledCorrect`); a
saved patcher is rebuilt (`BmaxRebuilt.LoadRebuilds`, `BmaxLoad.SaveAndLoad`); a dumped graph is loaded up to renaming
(`Dumper.LoadedIsDumped`); relocation is invisible (`FtlMem.RunKeeps`); a redefined object takes over the connections
it can take (`Connections.Network.MoveConnections`); encoded messages arrive (`Client.StreamArrives`); MIDI tracks
make the round trip under an exact condition (`MidiFile.TrackRoundTripIff`); the fifo is safe in every interleaving
(`Fifo.ReadsWhatWasWritten`); hash tables are finite maps (`Hashtable.HashTable.PutKey`); and evaluation is
denotation (`Expression.RunAgrees`).

Where the code does not meet an expectation the model follows the code and says exactly when:
`DspTraversal.NothingMissedIff`, `Ftl.AllInvokedIff`, `BmaxLoad.SaveAndLoad`, `BmaxRebuilt.PropertyRestored`,
`Dumper.LoadedIsDumped`, `Dumper.DeclaresIff`, `MidiFile.TrackRoundTripIff`, `Expression.FaultIff`,
`Expression.EnvCountSuffices`, `Client.RecoversIff`.

## Model

| member | source | states |
|---|---|---|
| DspTraversal.AdvanceDecreases | fts/dspgraph.c:131-166 | one step of the iterator, whether it pops or looks through a thru object, keeps the stack of distinct objects and makes the measure "remaining connections, bottom of the stack first" smaller: the iterator terminates on any network, cyclic ones included |
| DspTraversal.SkipDecreases | fts/dspgraph.c:138-162 | looking through a thru object outweighs everything that its answer pushes, however much that is |
| DspTraversal.StackFits | fts/dspgraph.c:94-119 | because the stack holds distinct objects it never gets higher than there are objects |
| DspTraversal.YieldsAreWalks | fts/dspgraph.c:94-206 | on every network, whatever thru objects answer: the connections yielded are the ends of the admitted walks (those that enter no object that is on the stack or waits there), in the order of the iterator, one for each walk |
| DspTraversal.YieldedPerWalk | fts/dspgraph.c:94-206 | how often a connection is yielded, which is how often it is counted and summed: once for each admitted walk that ends with it |
| DspTraversal.YieldsIff | fts/dspgraph.c:94-206 | with the answers the propagate methods of the kernel give (several receives, each at its only outlet, or one port), a connection is yielded exactly when it ends at an ordinary object and a chain of thru objects that passes no object twice leads to it; a patcher may be left through several outlets |
| DspTraversal.NothingMissedIff | fts/dspgraph.c:94-206 | the exact condition: everything behind an outlet is yielded if and only if everything there lies behind a chain that passes no object twice |
| DspTraversal.OneOutletSuffices | fts/dspgraph.c:106-109 | that holds when no object is entered through two of its outlets |
| DspTraversal.FeedbackMissed | fts/dspgraph.c:106-109 | a network on which it fails: a patcher with an outlet connected back to one of its inlets is on the stack when its second outlet is to be entered, so what lies behind that outlet is never yielded |
| DspTraversal.GraphIterator.constructor | fts/dspgraph.c:168-176 | a new iterator stands at its end or at a connection to an ordinary object, with everything still to come |
| DspTraversal.GraphIterator.Step | fts/dspgraph.c:131-166 | stepping loses no connection and ends at an ordinary object or at the end |
| DspTraversal.GraphIterator.Next | fts/dspgraph.c:178-189 | each call takes exactly the first of the connections still to come |
| DspTraversal.EdgesPerWalk | fts/dspgraph.c:546-580 | an edge is counted and summed once for each admitted walk from that outlet to a connection that is this edge, and not otherwise |
| DspTraversal.EdgesInOrder | fts/dspgraph.c:546-580 | the edges of an outlet come together, in the order in which the iterator on that outlet meets the connections to DSP objects |
| DspTraversal.SuccessorEdges | fts/dspgraph.c:546-580 | the traversal meets each edge once for each admitted walk that leads to it; the result depends on the patch alone, so the counting, the binding and the scheduling pass see the same |
| DspPatch.EdgesAre | fts/dspgraph.c:546-580 | an edge is among those of an object exactly when the iterator meets a connection to a DSP object behind that outlet |
| DspPatch.GraphOfValid | fts/dspgraph.c:546-580 | the graph with these edges is one the compiler accepts |
| DspPatch.HasEdgeIff | fts/dspgraph.c:546-580 | a node follows another exactly when a connection to it lies behind one of the outlets, through thru objects none of which is passed twice |
| DspPatch.CarryingAre | fts/dspgraph.c:546-580 | the walks that carry a signal to an inlet: the admitted ones from that outlet to a connection to this inlet that is not order-forcing |
| DspPatch.InletSumsWalks | fts/dspgraph.c:546-652 | what the graph of a patch asks an inlet to read is the sum of the outputs over these walks, each counted once |
| DspPatch.CompilePatch | fts/dspgraph.c:787-818 | compiling a patch, from its connections to the calls: the loops that collect the edges and the compiler together meet the statement of DspGraph.Compiler.Compile for the graph of the patch |
| DspGraph.Compiler.NewSignal | fts/dspgraph.c:266-294 | hands out a signal whose count is 0, or a new one, and marks it pending; nothing else changes |
| DspGraph.FreshForAdd | fts/dspgraph.c:266-294 | the signal handed out for an inserted sum is not the output being added, not pending, and bound to no inlet of an unscheduled node but the one being rebound: no later call still reads it |
| DspGraph.AddCountsAt | fts/dspgraph.c:622-643 | the five count updates of an inserted sum amount to one reference less on the old signal and one on the sum; the output goes from pending to 0 or keeps its count |
| DspGraph.PoolAdd | fts/dspgraph.c:618-645 | after a sum is inserted every count is again the number of inlets of unscheduled nodes bound to the signal |
| DspGraph.PoolBind | fts/dspgraph.c:646-652 | the same after an unbound inlet is bound to an output; the output is no longer pending |
| DspGraph.CountsSend | fts/dspgraph.c:602-603 | the predecessor counter of an unscheduled node stays the number of its edges that are not realized |
| DspGraph.Compiler.InsertAdd | fts/dspgraph.c:618-645 | the call appended, the rebinding and the counts of an inserted sum, with the signal drawn being a free one |
| DspGraph.Compiler.DecPredIncRefcnt | fts/dspgraph.c:598-653 | the whole new state after an edge is realized: counted down, and bound, summed or left alone |
| DspGraph.RealizeEdge | fts/dspgraph.c:598-653 | realizing any edge keeps all invariants: counters, reference counts, contents of every bound signal, the schedule, and the outputs later edges still need |
| DspGraph.PutNode | fts/dspgraph.c:455-495 | putting a ready node keeps the invariants although its outputs may reuse its own inputs; each output lands in a buffer no unscheduled inlet is bound to |
| DspGraph.PutReads | fts/dspgraph.c:455-471 | when its counter is 0 a node reads at every inlet each output as often as the graph has edges that carry it there |
| DspGraph.TopologicalPut | fts/dspgraph.c:655-669 | a node whose counter is 0 has all its predecessors in the schedule already |
| DspGraph.Compiler.UnreferenceInputs | fts/dspgraph.c:461-471 | unreferencing the inputs leaves the counts right for the remaining nodes, and unbound inlets read the zero signal |
| DspGraph.Compiler.GenOutputs | fts/dspgraph.c:407-453 | one pending signal for every outlet, all different, none of them the zero signal |
| DspGraph.Compiler.FreePending | fts/dspgraph.c:519-527 | outputs nothing was bound to are free again and no other count changes its meaning |
| DspGraph.FinishNode | fts/dspgraph.c:515-528 | a node whose edges are realized and whose pending outputs are freed leaves the invariant between nodes |
| DspGraph.Compiler.ScheduleNode | fts/dspgraph.c:455-528 | scheduling a node keeps the invariant between nodes, takes exactly that node out of the unscheduled ones, and makes only successors ready |
| DspGraph.Compiler.RealizeSuccessors | fts/dspgraph.c:515-517 | all edges of the node are realized, in the order DspPatch.EdgesAre and DspTraversal.SuccessorEdges give |
| DspGraph.Compiler.ScheduleDepth | fts/dspgraph.c:655-669 | depth-first scheduling terminates, keeps the invariant and leaves the node not ready |
| DspGraph.Compiler.ScheduleSuccessors | fts/dspgraph.c:662 | afterwards none of the successors is ready |
| DspGraph.Compiler.CountPredecessors | fts/dspgraph.c:703-710 | every counter is the number of edges into the node |
| DspGraph.Compiler.ScheduleAll | fts/dspgraph.c:712-723 | one pass over the nodes leaves no node ready: whatever became ready behind it was scheduled |
| DspGraph.LeftOutIffCycle | fts/dspgraph.c:725-742 | a node is left unscheduled exactly when it lies on a cycle or downstream of one |
| DspGraph.AcyclicIffAllIn | fts/dspgraph.c:725-742 | all nodes are scheduled exactly when the graph has no cycle |
| DspGraph.Compiler.CheckLoop | fts/dspgraph.c:725-742 | reports whether every node is scheduled |
| DspGraph.Compiler.Compile | fts/dspgraph.c:787-818 | for every graph: the calls emitted put each node at most once, in topological order, with the right summands at every inlet; every node left out has a predecessor left out; only allocated signals are mentioned; and the check for loops succeeds exactly when the graph is acyclic |
| SignalProgram.SymbolicSound | fts/dspgraph.c:455-652 | running the calls on any commutative monoid, from any buffer contents, gives the values of the formal sums that the symbolic run computes |
| DspMeaning.CompiledCorrect | fts/dspgraph.c:455-652 | compiler correctness: every node of the emitted program reads at each inlet the sum over exactly the edges that carry a signal there, zero if there are none, in spite of shared and reused buffers |
| DspMeaning.UniqueSolution | fts/dspgraph.c:455-652 | the dataflow equations of the scheduled nodes have one solution only |
| DspMeaning.TickIsTheSolution | fts/dspgraph.c:455-652 | a tick computes that solution, whatever earlier ticks left in the buffers |
| DspRun.AddVectors | fts/dspgraph.c:842-853 | the sample loop computes the sum of the two input slices even when it writes over one of them, and touches nothing else |
| DspRun.AllocatedIsPrepared | fts/ftl.c:608-659 | the freshly allocated buffer satisfies what a tick asks for: disjoint slices and a silent zero signal |
| DspRun.Assemble | fts/dspgraph.c:618-636 | the instructions appended are the calls of the program in order and a return |
| DspRun.AddSimulates | fts/dspgraph.c:842-853 | the call of the sum on slices does to the samples what the sum does to whole signals |
| DspRun.CallsSimulate | fts/ftl.c:1035-1060 | running the resolved calls on one buffer is running the program on signals |
| DspRun.ExecuteAll | fts/ftl.c:1035-1060 | the loop over the calls, each executed in place on the array, computes that run |
| DspRun.TickComputesGraph | fts/dspgraph.c:787-818 | end to end: graph, calls, words, and samples in one buffer of disjoint slices.  Every scheduled node reads at each inlet, sample by sample, the sum over its incoming edges and computes its function of that; the zero signal is silent again afterwards |
| DspRun.FitsAsItIs | fts/ftl.c:1035-1060 | vectors of the length of a tick are written as the node computes them |
| DspPatch.TickComputesPatch | fts/dspgraph.c:787-818 | a tick of a compiled patch: every scheduled object reads at each inlet, sample by sample, the sum over the walks that carry a signal there, each once, and computes its function of that |
| DspRun.EveryTickComputes | fts/dspgraph.c:830-836 | the same in every tick of every run, with nodes that compute something else in each tick |
| DspRun.RunTick | fts/ftl.c:733-766 | a tick run word by word on an array: assembled, sized, compiled and executed in place, it meets the statement of DspRun.TickComputesGraph |
| Ftl.Subroutine.AddCall | fts/ftl.c:290-309 | appending a call extends the assembled calls by that call |
| Ftl.Subroutine.AddReturn | fts/ftl.c:311-322 | the same for a return |
| Ftl.BytecodeSize | fts/ftl.c:716-731 | the counting pass accepts exactly the well-formed instruction arrays and gives their size |
| Ftl.CompilePortable | fts/ftl.c:667-714 | the writing pass fills exactly the counted words and leaves the rest of the array alone |
| Ftl.SizeIsExact | fts/ftl.c:484-553 | for every accepted program the counted size runs ahead of the words written by the arguments still outstanding: at the end of a call they are equal |
| Ftl.CodeCompiles | fts/ftl.c:290-322 | every sequence of appended calls and returns is accepted, sized exactly and compiled call by call |
| Ftl.AcceptsIff | fts/ftl.c:484-560 | with no negative argument count, what the state machine accepts up to the end of an instruction is exactly the code of calls, returns and empty instructions |
| Ftl.CallSubroutine | fts/ftl.c:1035-1060 | the execution loop makes the invocations the words spell out, up to the zero word |
| Ftl.AllInvokedIff | fts/ftl.c:1035-1060 | every call is invoked, in order, on its arguments in order, signals looked up and plain values as they are, exactly when no return stands between the calls and every function called has an address |
| Ftl.CompileAndRun | fts/ftl.c:733-766 | sizing, compiling and running a subroutine invokes exactly the functions appended, in order, on the resolved arguments |
| Bytes.GetWriteS | fts/bmaxfile.c:1378-1387 | a 16-bit operand is read back with its sign |
| Bytes.GetWriteL | fts/bmaxfile.c:1390-1401 | a 32-bit operand is read back with its sign |
| Bytes.DigitsOf | fts/bmaxfile.c:1366-1401 | operands are written as the base 256 digits of the value in two's complement, highest first |
| BmaxCode.GetWriteInt | fts/bmaxfile.c:1339-1415 | an operand is read back unchanged whatever width its value selects |
| BmaxCode.BmaxFile.AddSymbol | fts/bmaxfile.c:1300-1337 | a symbol gets an index once; the table is only appended to |
| BmaxCode.EncodeStable | fts/bmaxfile.c:1300-1337 | appending to the symbol table changes the encoding of nothing already written |
| BmaxCode.BmaxFile.CodeSymbol | fts/bmaxfile.c:1461-1471 | writing an instruction with a symbol appends its encoding under the table it leaves |
| BmaxCode.FetchEncoded | fts/bmaxfile.c:545-1034 | every instruction is read back as it was written, whatever follows it |
| BmaxCode.OperandBytes | fts/bmaxfile.c:1403-1459 | the bytes of instructions with operands of each width |
| BmaxCode.InstructionBytes | fts/bmaxfile.c:1434-1602 | the bytes of the other instructions, by their opcodes |
| BmaxCode.SymbolBytes | fts/bmaxfile.c:1461-1560 | an instruction with a symbol holds its index in the table |
| BmaxCode.FetchMovesOnIff | fts/bmaxfile.c:990-1004 | the reader moves on to the next instruction exactly when the one it reads is not a table of more than 32767 objects, whose four operand bytes count as one |
| BmaxCode.TableOfManyReturns | fts/bmaxfile.c:999 | after any table of 32768 to 65535 objects the second byte of the operand is executed: the machine returns |
| BmaxMachine.VirtualMachine.Execute | fts/bmaxfile.c:545-1034 | each instruction changes the stacks, tables and objects as specified |
| BmaxMachine.VirtualMachine.Run | fts/bmaxfile.c:523-1042 | the loop over the bytes executes the encoded instructions, up to the first table whose size it steps into, and returns the object on top with the arguments and the parent taken away |
| BmaxPatcher.CodePushAtoms | fts/bmaxfile.c:1604-1623 | arguments are pushed backward, all of them |
| BmaxPatcher.CodeNewObject | fts/bmaxfile.c:1662-1746 | the code of an object: description, creation, properties, messages, place in the table |
| BmaxPatcher.CodeNewTopObject | fts/bmaxfile.c:1748-1784 | the code of the outermost patcher, which takes the arguments of the load |
| BmaxPatcher.CodeNewConnection | fts/bmaxfile.c:1786-1808 | the code of a connection; hidden ones are not written |
| BmaxPatcher.CodeBody | fts/bmaxfile.c:1835-1900 | the recursive code of a patcher: table, objects and nested patchers in order, connections, table popped |
| BmaxPatcher.SavePatcher | fts/bmaxfile.c:1902-1935 | what is written to the file encodes the instructions of the whole tree under the final symbol table |
| BmaxLoad.RunsObject | fts/bmaxfile.c:1662-1746 | running the code of an object leaves the evaluation stack as it was, the object in its slot of the table and on top of the object stack, for any description, properties and messages |
| BmaxLoad.RunsBody | fts/bmaxfile.c:1835-1900 | running the contents of a patcher, nested at any depth, leaves all three stacks as they were |
| BmaxLoad.RunsPatcher | fts/bmaxfile.c:1902-1935 | running the code of a saved file with any number of arguments builds the loaded world and leaves one object more |
| BmaxLoad.BodyOversizedIff | fts/bmaxfile.c:1835-1900 | the code of a patcher has a table instruction that is misread exactly when it, or a patcher nested in it at any depth, has more than 32767 objects |
| BmaxLoad.HaltsBody | fts/bmaxfile.c:990-1042 | loading such a patcher runs everything up to the table of the first patcher that is too large and returns there, with that patcher on top of the object stack and the evaluation stack as it was |
| BmaxLoad.HaltedShort | fts/bmaxfile.c:990-1042 | fewer objects exist then than the saved patcher has |
| BmaxLoad.SaveAndLoad | fts/bmaxfile.c:523-1042 | saving a patcher and loading the bytes returns the rebuilt patcher, with the three stacks at their depth before the call, if and only if no patcher in it has more than 32767 objects; otherwise loading ends where the first such patcher begins |
| BmaxRebuilt.LoadRebuilds | fts/bmaxfile.c:1835-1900 | the loaded patcher has the same objects in the same order at every depth, each with its description, its properties and what it is sent, attribute by attribute, connected as saved; the objects of other patchers are untouched |
| BmaxRebuilt.EntityRestored | fts/bmaxfile.c:1662-1746 | a loaded object is sent its name, with a 1 behind a global one, then its messages for the editor, and if it is persistent its state and one persistence message; it has its description, and of the properties x, y, height, width, font, fontSize, fontStyle, layer and for a patcher wx, wy, ww and wh exactly those that were set |
| BmaxRebuilt.TopIsRestored | fts/bmaxfile.c:1748-1784 | the outermost patcher is made from its class name and the arguments of the load, with exactly its own list of properties |
| BmaxRebuilt.FanIsReversed | fts/connection.c:181-189 | each fan-out list is the list of the visible saved connections in reverse, none missing, because connections are prepended |
| BmaxRebuilt.PropertyRestored | fts/bmaxfile.c:1637-1649 | an int, float or symbol property comes back, an absent one stays absent, and one of another type comes back as the last value put before it |
| Dumper.IdRoundTrip | fts/dumper.c:159-186 | an id symbol is read back as its id, and nothing else is |
| Dumper.OnlyIds | fts/dumper.c:172-186 | only a number sign with a digit other than 0 behind it is read as an id |
| Dumper.ObjectDumper.DumpObject | fts/dumper.c:217-271 | dumping an object computes the recursive specification, and the saved id is on top of the stack again |
| Dumper.ObjectDumper.DumpReference | fts/dumper.c:273-286 | a reference to an object without an id dumps the object first |
| Dumper.ObjectDumper.Send | fts/dumper.c:288-328 | a message of the state is written after the objects it refers to |
| Dumper.DumpVisits | fts/dumper.c:189-325 | dumping ends on every finite graph, with sharing and cycles, gives ids to exactly the reachable objects and writes exactly one object line for each |
| Dumper.DumpDeclares | fts/dumper.c:217-286 | the exact condition, root by root, when no plain symbol looks like an id: every id is mentioned only after its object line if and only if a depth-first search from the root never leads back to an object whose description is still being searched |
| Dumper.NoCycleBackFree | fts/dumper.c:217-286 | the search never leads back when no reference cycle among the objects reachable from the root uses a description edge |
| Dumper.DescCycleMentions | fts/dumper.c:217-271 | the converse: an object that is reached from what its own description refers to is mentioned before its line when it is dumped, because all of that is written first |
| Dumper.DeclaresIff | fts/dumper.c:189-325 | whatever is reachable from an object can be the root of such a dump if and only if no reference cycle there uses a description edge |
| Dumper.AllDeclareIff | fts/dumper.c:189-325 | the same over all objects of a graph |
| Dumper.DumpWrites | fts/dumper.c:189-325 | each dumped object has its line and then the messages of its state, in order |
| Dumper.LineIds | fts/dumper.c:217-328 | every line carries the id of a dumped object |
| Dumper.ObjectLoader.RestoreObject | fts/dumper.c:433-496 | an id that is taken is not restored twice |
| Dumper.ObjectLoader.RestoreMessage | fts/dumper.c:498-536 | a message goes to the object of its id, or is lost if there is none |
| Dumper.ObjectLoader.ReplaceSymbols | fts/dumper.c:397-430 | id symbols become the objects they name, or 0 |
| Dumper.Refused | fts/dumper.c:433-536 | a line for an object whose id is taken changes nothing, and a message to an object that is not there is lost |
| Dumper.ResolvedArgument | fts/dumper.c:397-430 | an id that is loaded becomes its object, any other id 0, and anything else stays as it is |
| Dumper.ObjectLoader.LoadLines | fts/dumper.c:581-607 | the loop over the lines fills the table that the following rows are about |
| Dumper.LoadIs | fts/dumper.c:397-536 | for lines with distinct ids and object lines before messages, the table has exactly the ids of the object lines, and holds for each what its lines say if and only if every id is declared before it is mentioned |
| Dumper.LoadedIsDumped | fts/dumper.c:189-536 | on every finite graph the ids number the reachable objects one to one and are the ids loaded; and each object is loaded with its class, arguments and messages, references renamed, if and only if no plain symbol there looks like an id and the search from the root never leads back into an open description |
| Dumper.CycleEntered | fts/dumper.c:217-286 | a cycle through a description that does no harm when the dump enters it from one root, and loses a reference from the other |
| Dumper.SelfReferenceLost | fts/dumper.c:433-496 | what becomes of a graph that violates it: an object that refers to itself in its description is loaded with 0 in its place |
| Dumper.PlainSurvivesIff | fts/dumper.c:172-186 | a plain symbol survives the round trip exactly when it does not look like an id |
| FtlMem.RoomForHole | fts/ftlmem.c:407-447 | in multiples of four, the strict test for free space leaves room for the alignment hole |
| FtlMem.AllocateGives | fts/ftlmem.c:449-514 | an allocation gives memory that overlaps nothing given before, lies inside one block in use, and is 8-aligned unless its rounded size is 4; nothing given before is disturbed |
| FtlMem.AllocateChooses | fts/ftlmem.c:407-514 | where it goes: into the pending hole of the first block if the hole has that size and is near, else behind what the first block has given, aligned, if there is room, and else at the beginning of a fresh block; what is skipped becomes the hole |
| FtlMem.FtlMemory.AllocateFrom | fts/ftlmem.c:407-447 | the bump allocation in a block computes the specification |
| FtlMem.FtlMemory.Reserve | fts/ftlmem.c:449-514 | hole reuse, search for room and new blocks compute the specification |
| FtlMem.FtlMemory.NewHandle | fts/ftlmem.c:86-123 | gives a free handle, adding a page when there is none |
| FtlMem.FtlMemory.DataAlloc | fts/ftlmem.c:152-176 | the client sees a new handle of the size asked for and no other change |
| FtlMem.FtlMemory.DataFree | fts/ftlmem.c:178-184 | the client sees that one handle disappear |
| FtlMem.FtlMemory.StartRelocation | fts/ftlmem.c:211-222 | starting a relocation is invisible |
| FtlMem.FtlMemory.RelocateAndGet | fts/ftlmem.c:307-333 | the pointer returned is into the new heap and holds the same bytes |
| FtlMem.FtlMemory.EndRelocation | fts/ftlmem.c:231-304 | ending a relocation is invisible: all live handles are in the new heap, and no old block is left |
| FtlMem.FtlMemory.ResetHandles | fts/ftlmem.c:125-149 | copied handles become allocated ones and keep their bytes |
| FtlMem.StoreView | fts/ftlmem.c:152-176 | writing through one live handle changes the bytes of that handle only |
| FtlMem.RelocateKeeps | fts/ftlmem.c:307-333 | copying a handle keeps the bytes of all live handles and the account of the blocks |
| FtlMem.FreeBlockKeeps | fts/ftlmem.c:231-304 | once every handle is copied, giving up an old block loses nothing |
| FtlMem.RunKeeps | fts/ftlmem.c:152-333 | over every run of allocations, frees, writes and relocations: each block is in exactly one list, allocated handles point into old blocks and copied ones into new ones, and a handle nobody touches keeps its bytes |
| FtlMem.LiveApart | fts/ftlmem.c:407-514 | live handles share no byte, lie inside one block that is not free, and are aligned |
| Connections.ConnectIff | fts/connection.c:84-192 | a connection is made exactly when its ports exist or belong to error objects, it is not hidden at an error object, it fits, and no connection has the same ends; then it is all that changes |
| Connections.ConnectPrepends | fts/connection.c:150-189 | a new connection comes first in the list of its outlet and in that of its inlet, the others keep their order, and its kind changes only from none to anything between valid objects |
| Connections.ConnectPorts | fts/connection.c:96-117 | only an error object grows ports, up to the one asked of it, and not for a hidden connection |
| Connections.DeletedIs | fts/connection.c:194-224 | deleting takes the connection out of both its lists and changes no other |
| Connections.DeletedKeepsOrder | fts/connection.c:194-224 | the other connections of the two lists keep their order |
| Connections.EndsAgree | fts/connection.c:131-224 | the list at the outlet and the list at the inlet agree on every connection, its ports exist, and its ends determine it |
| Connections.Network.New | fts/connection.c:84-192 | the method computes the wiring that Connections.ConnectIff is about |
| Connections.Network.Delete | fts/connection.c:194-224 | the method unlinks from both lists as Connections.DeletedIs describes |
| Connections.Network.Get | fts/connection.c:226-241 | finds the connection with the given ends if and only if there is one |
| Connections.Network.TrimInlets | fts/patcherobject.c:473-489 | exactly the connections to inlets that go are deleted |
| Connections.Network.TrimOutlets | fts/patcherobject.c:491-507 | the same for outlets |
| Connections.Network.SetInlets | fts/patcherobject.c:513-530 | the number of inlets changes and exactly the connections to inlets that went are gone; all other port counts stay |
| Connections.Network.SetOutlets | fts/patcherobject.c:533-551 | the same for outlets |
| Connections.Network.RemoveConnections | fts/patcherobject.c:613-635 | exactly the connections at the object are gone |
| Connections.Network.MoveConnections | fts/patcherobject.c:580-610 | terminates; the connections afterwards are the old ones with the old object renamed to the new one, self-connections included, restricted to visible ones on existing ports that fit; the old object has none; in every list the ones taken over come first, the last one moved foremost, and the others keep their order |
| Connections.EndsIn | fts/patcherobject.c:580-610 | the two halves of the move add up to that renaming |
| Client.ClientObject.StateNext | fts/client.c:412-577 | one byte moves the automaton as specified |
| Client.ClientObject.Receive | fts/client.c:583-601 | a chunk is fed byte by byte |
| Client.RawStringArrives | fts/client.c:335-353 | a raw string adds its tokens to the arguments received before |
| Client.UnknownTargetDropped | fts/client.c:377-410 | a message to an object that is not in the table is dropped and the caches still agree |
| Client.BadTypeSkips | fts/client.c:448-476 | a byte that is no type makes the decoder skip to the end of the message; the arguments received before it stay |
| Client.RecoversIff | fts/client.c:448-476 | so the next message is delivered as it was sent if and only if no argument had been received before that byte |
| Client.ClientObject.WriteSymbol | fts/client.c:1049-1092 | a symbol goes out as an index if the slot holds it, and otherwise in full, filling the slot |
| Client.ArgumentBytes | fts/client.c:1018-1108 | the bytes of each kind of argument: a symbol goes out as its slot alone when the cache has it there, and otherwise in full |
| Client.ClientObject.SendMessage | fts/client.c:1110-1208 | a message goes out as its encoding, and the output buffer is empty again |
| Client.SymbolArrives | fts/client.c:298-324 | a symbol arrives in either form, and whatever slot the encoder has filled the decoder holds the same symbol in |
| Client.ArgArrives | fts/client.c:270-360 | an int, float, symbol, string or registered object arrives as it was sent and the caches still agree |
| Client.MessageArrives | fts/client.c:377-410 | a message arrives as one delivery to its target with its selector and arguments |
| Client.ChunksDoNotMatter | fts/client.c:583-601 | how the bytes are cut into chunks makes no difference |
| Client.StreamArrives | fts/client.c:412-577 | decoding any chunking of the encoded messages delivers exactly those messages in order and leaves the caches in agreement, whatever the caches held before |
| MidiFile.VarLenIs | fts/midifile.c:745-768 | a quantity is written as its groups of seven bits, highest first; from 2^28 on the 32-bit buffer has lost one |
| MidiFile.QuantityReadBack | fts/midifile.c:120-142 | a quantity below 2^28 is read back; a larger one comes back without its last seven bits |
| MidiFile.QuantityRoundTripIff | fts/midifile.c:745-768 | a quantity survives exactly when it is below 2^28 or a multiple of 128 |
| MidiFile.MidiWriter.WriteVarLen | fts/midifile.c:745-768 | the method writes that encoding through the block buffer |
| MidiFile.MidiWriter.WriteChannelMessage | fts/midifile.c:895-916 | delta time, status and data bytes are appended and counted |
| MidiFile.MidiWriter.WriteTrackEnd | fts/midifile.c:853-893 | the length at the beginning of the track is overwritten by the bytes that follow it |
| MidiFile.MidiWriter.WriteTrack | fts/midifile.c:831-916 | a track is appended to the file as a chunk with the right length, across any number of buffer blocks |
| MidiFile.ChunkLayout | fts/midifile.c:831-893 | a chunk is its tag, the number of bytes that follow, the messages, and the end of the track |
| MidiFile.MidiReader.ReadVarNum | fts/midifile.c:120-142 | the method reads a quantity as specified, across block borders |
| MidiFile.MidiReader.ReadOne | fts/midifile.c:374-640 | one round of the reading loop computes the specification |
| MidiFile.MidiReader.ReadAll | fts/midifile.c:356-660 | the loop terminates and computes the specification on every file, well-formed or not |
| MidiFile.ChannelMessageRead | fts/midifile.c:419-475 | any channel message with its status byte is delivered once, on its channel at its time, with its data bytes; a note-off is a note of velocity 0 whatever its own velocity |
| MidiFile.RunningStatusRead | fts/midifile.c:407-418 | a data byte in place of a status byte repeats the last channel status with that byte as its first data byte |
| MidiFile.NoStatusYet | fts/midifile.c:407-416 | without a status before it that is an error |
| MidiFile.MetaRead | fts/midifile.c:521-660 | a meta event takes exactly its bytes, as many as its length says but for the kinds of fixed size, and delivers no channel message |
| MidiFile.SysexRead | fts/midifile.c:472-492 | a system exclusive message takes exactly its bytes, delivers no channel message, and is to be continued exactly if its last byte is not 0xf7 |
| MidiFile.ContinuationRead | fts/midifile.c:493-517 | a continuation takes its bytes and ends the message it continues exactly if its last byte is 0xf7 |
| MidiFile.UnexpectedRead | fts/midifile.c:401-405 | anything but a continuation while one is due is an error, as are the other status bytes above 0xf0 |
| MidiFile.EventReadBack | fts/midifile.c:374-455 | a written channel message is read back as itself at the time the reader adds up |
| MidiFile.TrackReadBack | fts/midifile.c:356-660 | a written track is read back, whatever follows it, as the same messages with no error |
| MidiFile.TrackRoundTripIff | fts/midifile.c:356-660 | messages and times survive exactly when the times never run backwards and each step is below 2^28 or a multiple of 128 |
| Fifo.FifoObject.GetReadLevel | fts/fifo.c:35-47 | the bytes between the indices |
| Fifo.FifoObject.GetWriteLevel | fts/fifo.c:49-61 | the bytes free between the indices, one being kept free |
| Fifo.FifoObject.IncrRead | fts/fifo.c:63-75 | the index moves on by the increment and wraps at the end |
| Fifo.FifoObject.IncrWrite | fts/fifo.c:77-89 | the index moves on by the increment and wraps at the end |
| Fifo.LevelsCount | fts/fifo.c:35-61 | the two levels count the entries between the indices, one byte being kept free |
| Fifo.StepKeeps | fts/midi.c:99-171 | every step of either thread, taken at any time, keeps the unread entries in their slots and apart from the one being filled |
| Fifo.ReadsWhatWasWritten | fts/midi.c:99-171 | in every interleaving the entries read are a prefix, in order, of those written, and no unread entry is overwritten |
| Fifo.WrittenIsPublished | fts/midi.c:140-171 | what counts as written is exactly what was filled in when the writer moved its index, in order |
| Fifo.FilledIsWritten | fts/midi.c:140-171 | when there is room, an entry filled in after the check and published is written, whatever the reader does in between |
| Fifo.OldestIsRead | fts/midi.c:99-138 | when an entry waits, the next check, consumption and release read the oldest one, whatever the writer does in between |
| Fifo.ChecksAreExact | fts/midi.c:99-156 | the writer finds room exactly when fewer than all but one of the entries are waiting, and the reader finds an entry exactly when one is |
| Hashtable.FindIff | fts/hashtable.c:185-212 | a key is found with a value exactly when some cell has an equal key and that value |
| Hashtable.PutFind | fts/hashtable.c:278-299 | putting changes what is found for equal keys and for no other |
| Hashtable.RemoveFind | fts/hashtable.c:301-318 | removing removes what is found for equal keys and for no other |
| Hashtable.RehashKeeps | fts/hashtable.c:248-276 | rehashing keeps the number of cells and everything that is found |
| Hashtable.HashTable.LookupCell | fts/hashtable.c:185-194 | finds the position of the key in its chain, or the end |
| Hashtable.HashTable.PutKey | fts/hashtable.c:278-299 | refines the update of a map; tells whether the key was there; the table is rehashed to the next length exactly when a new key makes it too full |
| Hashtable.HashTable.RemoveKey | fts/hashtable.c:301-318 | refines the removal from a map; tells whether the key was there |
| Hashtable.HashTable.Rehash | fts/hashtable.c:248-276 | relinking every cell gives the rehashed table |
| Hashtable.EachCellOnce | fts/hashtable.c:385-455 | an iterator meets every cell exactly once |
| Hashtable.CellIterator.HasMore | fts/hashtable.c:386-404 | tells whether cells are left and moves to the next of them |
| Hashtable.CellIterator.Next | fts/hashtable.c:406-428 | takes exactly the first of the cells left, finding the next bucket by itself when a chain is used up |
| Hashtable.AllocateSignals | fts/ftl.c:608-659 | two passes over the same table give every declared signal the slice that starts where the signals before it end |
| Hashtable.SlicesPartition | fts/ftl.c:608-659 | the slices are disjoint, lie in the buffer and fill it |
| Expression.Evaluator.Eval | fts/expression.c:360-780 | the recursive evaluator on its stack and frame pointer computes the stack machine that the following rows are about |
| Expression.Evaluator.Evaluate | fts/expression.c:783-796 | no expression is an error; otherwise evaluation starts from one empty frame |
| Expression.RunAgrees | fts/expression.c:360-780 | evaluation in any frame of any stack turns the frame into what the tree denotes: on success the stack below the frame and the frame pointer are unchanged and the callbacks are made from left to right; on failure the error and the callbacks are those denoted; a guarded machine faults where something is short |
| Expression.BinaryMeans | fts/expression.c:265-295 | a binary operator is applied to the value of its left tree and that of its right one, in this order; no result is a mismatch |
| Expression.UnaryMeans | fts/expression.c:250-271 | a unary operator is applied to the value of its tree |
| Expression.ParenthesesMean | fts/expression.c:482-572 | a parenthesised list calls the function its first value names with the others, or invokes the method named second on the object that comes first with the others, or is its one value; all else is an error |
| Expression.ElementMeans | fts/expression.c:425-473 | element access selects with the values of the right tree from the object of the left one |
| Expression.TermsMean | fts/expression.c:407-481 | terms give their values one after the other, a tuple holds them, a constant is itself |
| Expression.SequencesMean | fts/expression.c:375-405 | the callback is given the list before a comma, and what follows is evaluated only if it accepts; the list before a semicolon is dropped |
| Expression.ReferenceMeans | fts/expression.c:580-660 | a reference is the argument of its number, or what its name is bound to, local definitions before global ones and void ones counting as none |
| Expression.ArgumentsMean | fts/expression.c:594-622 | all the arguments, or those behind the first, without the void ones and in order |
| Expression.ShortIff | fts/expression.c:265-340 | a tree has a denotation in a frame exactly when, as its operators come to be evaluated, the frame has a value for each operand and element access has something to access |
| Expression.FaultIff | fts/expression.c:265-340 | a machine that faults when an operator reads below its frame faults exactly on the trees without enough operands; on all others the machine of the source, which does not look, does the same |
| Expression.RunAppends | fts/expression.c:360-780 | a tree whose operators have operands of their own appends exactly the list it denotes to any stack |
| Expression.SingleIsEnough | fts/expression.c:265-340 | single-valued operands are enough, if element access has something to access |
| Expression.EvaluationIsDenotation | fts/expression.c:783-796 | with enough operands the values, the error and the callbacks of an evaluation are those denoted, and its one frame stays in place |
| Expression.ShortOperandCorruptsFrame | fts/expression.c:265-281 | an expression without enough operands: adding 1 to an empty argument list takes the saved frame pointer for an operand, the callback is given an empty list, and the frame pointer comes back wrong |
| Expression.GetEnvCountAux | fts/expression.c:827-842 | computes the running maximum |
| Expression.EnvCountIff | fts/expression.c:827-852 | the count is the least number of arguments above every $<int> of the tree but the largest int, for which it overflows |
| Expression.MissingIff | fts/expression.c:580-592 | with any arguments, evaluation of any tree fails for want of an argument exactly when it comes to a $<int> that has none, and names one it has come to |
| Expression.EnvCountSuffices | fts/expression.c:580-592 | with at least that many arguments evaluation fails for want of an argument if and only if it comes to a $<int> that is negative or the largest int, and names such a one |
| Expression.EnvCountSufficesRun | fts/expression.c:783-796 | the same condition for the evaluation of an expression on the stack, when its operators have enough operands |
| Expression.CountedSuffices | fts/expression.c:827-852 | no argument is missing when no $<int> of the tree is negative or the largest int |
| Expression.UncountedFails | fts/expression.c:580-592 | the expressions $-1 and $2147483647: the count is 0 and evaluation fails with any number of arguments |

## Left out

DSP graph and FTL programs:

- DspTraversal.YieldsIff: speaks of the answers that patchers, their inlets and outlets, labels, sends and dispatchers give; DspTraversal.YieldsAreWalks covers any answers.
- DspRun.TickComputesGraph: a node is one call that reads all its inputs and then writes all its outputs; what the put messages of the object classes append is not modelled beyond that.
- DspRun.EveryTickComputes: the state a node keeps between ticks appears as a function that may differ in each tick.
- Resampling, inputs of different lengths and the rewriting of the length of the zero signal: all signals have one length.
- The prologue and epilogue messages of a compilation and put_after_successors: their calls are those of object classes outside the kernel.
- Edges that lead out of the list of DSP objects; every DSP object met is a node of the graph.
- Debugging information of FTL instructions; the marking of signal connections for the editor.
- Ftl.CodeCompiles: looking up a function or signal is a total function, since an unknown name leaves an arbitrary word in the source.
- Floating-point arithmetic: samples are values of any commutative monoid, so rounding, which makes sums depend on their order, is not modelled.

bmax files:

- BmaxLoad.SaveAndLoad: at most 65535 objects in a patcher, since after a larger table the machine executes other bytes of the operand than the return opcode, and 32-bit counts elsewhere; the stacks, 8192 entries each in the source, are unbounded.
- BmaxMachine.VirtualMachine.Execute: making an object is recorded with its description, not evaluated: expressions, templates, abstractions and objects that fail to be made are left out.
- BmaxMachine.VirtualMachine.Run: the instructions are those the code generator writes; other byte strings are left out.
- The header and the text of the symbol table in the file; symbols are taken by index from the table.
- Saving and pasting selections, and the description fix-up for version 1 files.
- The table restored by the outermost pop is none.
- BmaxRebuilt.LoadRebuilds: connecting on load is accepted between the ports that were saved; the port counts and types of remade objects are not part of the loaded world.
- Message order inside the dump method of an object class: what it sends is a list.

Dumper and loader:

- Dumper.LoadedIsDumped: graphs are compared before the loaded root takes the place of another object.
- Ids beyond the range of an int.

FTL memory:

- FtlMem.FtlMemory.DataAlloc: sizes are above 0 and at most that of a block, as those of the types it is called for; a larger one gets a null pointer that no caller checks.
- FtlMem.AllocateGives: sizes are above 0 and at most that of a block, as the source demands of its callers; aborting a relocation does nothing in the source and is left out.
- FtlMem.StoreView: the bytes of a float or a struct are bytes; their meaning is left out.

Connections:

- Connections.Network.MoveConnections: the new object starts without connections, as it does after it is created; update notifications to the editor are left out.
- Changing the type of an existing connection; the links of a list are its order.

Client protocol:

- Client.StreamArrives: speaks of encoded messages; of malformed input only what Client.RecoversIff says is claimed.
- Registration and release of objects; the ids are given.
- `fts/binaryprotocol.c`: a second implementation of the same protocol.

MIDI:

- MidiFile.MidiReader.ReadOne: of system exclusive, text and tempo events only the bytes skipped and the errors reported are modelled, not what they deliver.
- MidiFile.MidiReader.ReadAll: the same.
- MidiFile.TrackReadBack: tracks of channel messages; writing system exclusive messages, which get no length, is left out.
- Times in milliseconds and the tempo map; files with several tracks.
- MidiFile.QuantityReadBack: quantities are below 2^31, as ticks are ints.
- Fifo.ReadsWhatWasWritten: memory is sequentially consistent, and an entry is filled and taken in one step each; resynchronisation of clocks is left out.

Hash tables:

- Hashtable.HashTable.PutKey: hashing and equality of atoms are any functions that are consistent with each other; the heaps cells come from are left out.

Expressions:

- Expression.RunAgrees: of a machine that is not guarded nothing is said once an operator has read below its frame, where the source goes on with a saved frame pointer as an operand.
- Expression.EnvCount: adding 1 to the largest int is undefined in C; it is taken to wrap around.
- The arithmetic itself, functions, methods and element access: any functions of their arguments.
- Message caches in parse trees, reference counts of values, and the lexer and parser.
