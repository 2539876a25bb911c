# Instrew: verified models

Instrew translates guest machine code to host code while the guest runs. A server process reads
guest code through a pipe, decodes and lifts it, optimises it and sends object code back; a client
process links that code and dispatches guest addresses to it. This project models the parts of both
processes, and of the decoder libraries they use, whose correctness does not follow from any single
function, and proves what they are relied upon for.

| part | modules |
|---|---|
| Decoder generator: opcode patterns to a trie, to a reduced trie, to 16-bit words, to the C walk | `OpcodeTrie`, `Opcodes`, `TrieShape`, `TrieFrontier`, `TrieMeaning`, `TrieBuilder`, `TrieReduce`, `TrieCanonical`, `TriePack`, `DecodeWalk`, `DecodeCorrect`, `TableGenerator` |
| Dirty registers and the deletion of stores to the CPU struct | `PackFlow`, `PackLift`, `PackSemantics` |
| Promotion of CPU struct fields to arguments and results | `PromoteIR`, `PromoteSpec`, `PromoteProof`, `PromoteTheorem`, `FieldMap`, `PhiWiring`, `ConvertSpec`, `Converter`, `PromoteHazard`, `PromoteExact` |
| Two decoders of guest code and their agreement | `InstrFlow`, `CodeReach`, `BlockDecoder`, `Predecoder`, `DecoderAgreement` |
| x86 encoder against decoder | `OpcodeBytes`, `PrefixDecode`, `OpcodeRoundTrip`, `MemOperand`, `OperandRoundTrip`, `Encoder`, `FullInstruction` |
| Client and server over two pipes, remote memory | `Wire`, `Protocol`, `ProtocolInv`, `ProtocolSafety`, `RemoteMemory` |
| Code table, its readers, dispatch | `CodeTable`, `TableReaders`, `Dispatch` |
| Relocations against the decoder of the patched code, and that code run | `Relocation`, `RelocatedCode` |
| Rounding by bit manipulation, the bump allocator | `Arith`, `Rounding`, `Arena` |

Code that updates state in place is modelled by methods and classes, each tied by its contract to a
function or predicate on values; the theorems are about those. `dafny verify dfyconfig.toml` covers
the whole project. `Options` has the type of values that may be missing.

The main theorems, one per part:

- `TableGenerator.DecodeWords`: the C walk over the generated 16-bit words answers with the
  descriptor of the pattern that the instruction list selects, however many bytes are left.
- `PackSemantics.StoresDeleted` and `OptimizeLifted`: on every path, with and without the deleted
  stores, every call and return sees the same CPU struct, for whatever the lifter made.
- `PromoteExact.CallConvPreserved`: on every path on which the original function tears no field, the
  converted function hands over the same struct; `PromoteExact.PreservedIff` shows that this condition
  is exact, and `Converter.ChangeCallConv` when there is a converted function at all.
- `DecoderAgreement.DecodersAgree`: the lifter's and the server's decoder find the same instructions,
  leaders and blocks.
- `OpcodeRoundTrip.HeadRoundTrip` and `FullInstruction.FullRoundTrip`: what is encoded is decoded
  again, from the prefixes to the immediate.
- `ProtocolSafety.EveryRun`: framing, the one deliberate peek, liveness and faithful contents in
  every state of every run.
- `TableReaders.ReadersSafe` and `Dispatch.Dispatcher.Run`: readers see only published entries, and
  each address is dispatched to its one entry.
- `RelocatedCode.BranchEnds`, `RelocatedCode.MovesReach`, `Relocation.RelocAdrpAdd` and
  `RelocAdrpLdst`: the patched code, when it runs, reaches the symbol.
- `Rounding.RoundingIsExact`: floor, ceil, round and trunc are exact on every finite number.
- `Arena.Arena.Alloc`: aligned, disjoint blocks inside accessible pages.

Where a promise does not hold for all inputs, the failing inputs are given and the exact condition is
proved:

- A store to a field is handed over as it was although a later one, not to the start of a field, has
  changed part of it (`PromoteHazard.PartialStore`). `PromoteHazard.HandedOverIff` gives the exact
  condition for one store, and `PromoteExact.PreservedIff` for a path, both on the original code.
- `ChangeCallConv` stops exactly if a known load or a foldable store has another size than its field,
  two stores to a field can be folded into one call or return, or nothing escapes and the entry block
  calls or returns (`Converter.ChangeCallConv`).
- Descriptor numbers from 0x2000 on do not fit into a 16-bit word (`TableGenerator.GeneratedDecode`).
- If no opcode byte makes a difference after an escape, the walk does not step over that byte
  (`DecodeCorrect.DescentStays`).
- A decode mode without a root table of its own gets no offset (`TableGenerator.RootsKeptIff`).
- An opcode word whose opcode byte is a prefix or escape is read differently
  (`OpcodeRoundTrip.HeadRoundTrip`).
- For every server mode other than 0 there is a run in which the client gives up
  (`ProtocolSafety.ModeMatters`).
- The range checks of the relocations refuse the largest value that fits and nothing else that does
  (`Relocation.OneShort32`, `OneShort28`, `OneShort21`, `OneShortU32`).
- A branch relocation loses the low two bits of the distance, a scaled load or store the low bits of
  the address (`Relocation.RelocBranch`, `Relocation.RelocAdrpLdst`). An ADD with a shifted immediate
  gives the symbol only if its low bits are zero (`Relocation.RelocAdrpAdd`).
- The allocator's sums wrap around: a request that ends in the last page of the address space passes
  the check of the end, though it fits no arena (`Arena.PastTheEnd`, `Arena.Arena.Alloc`).
- A read that ends in the last page of the address space goes on at address zero unless a page from
  the start on is unreadable (`RemoteMemory.EmptyRead`, `RemoteMemory.Memory.Get`).
- An object with a function whose name gives no address is accepted, but nothing from that function on
  is registered (`Dispatch.Dispatcher.AddObject`).
- Moves give the symbol exactly if every half-word that no move writes is zero
  (`RelocatedCode.MovesReach`).
- Address 0 is answered by an unused entry of the quick TLB, with function 0
  (`Dispatch.DispatchNull`, `Dispatch.Dispatcher.Run`).

Two places where comments in the source say less than the code does: truncf and trunc are commented
as giving -1 below zero and return a signed zero (client/math.c:112, 127); the lifter says that no
more than one call per block occurs, and the conversion stops where that fails
(server/callconv.cc:249-254). The model follows the code.

## Model

| member | source | states |
|---|---|---|
| Opcodes.TransformValid | subprojects/fadec/parseinstrs.py:398-419 | Every well-formed opcode gives non-empty, duplicate-free index lists within the table lengths, with TABLE8E indices only under the register half of TABLE16. |
| Opcodes.TransformMatches | subprojects/fadec/parseinstrs.py:398-419 | An index vector satisfies the lists of an opcode exactly if the bytes and prefixes it stands for satisfy the opcode read as a condition on them. |
| TrieBuilder.Trie.constructor | subprojects/fadec/parseinstrs.py:381-384 | The empty trie is valid and means the empty pattern list. |
| TrieBuilder.Trie.AddTable | subprojects/fadec/parseinstrs.py:386-389 | One empty table is appended and recorded under its kind; nothing else changes. |
| TrieBuilder.Trie.Clone | subprojects/fadec/parseinstrs.py:391-396 | The copy means what the entry meant, shares no table with anything, and existing tables are unchanged. |
| TrieBuilder.Trie.CloneRow | subprojects/fadec/parseinstrs.py:395 | Every entry of the row is copied in that sense, each copy with the new slot as its only parent. |
| TrieBuilder.Trie.Expand | subprojects/fadec/parseinstrs.py:433-443 | The slot now refers to a table of the wanted kind, the tree stays unshared, and every root keeps its meaning for every vector. |
| TrieBuilder.Trie.Adopt | subprojects/fadec/parseinstrs.py:440 | The first slot of the new table takes the old entry over, with the same meaning. |
| TrieBuilder.Trie.Multiply | subprojects/fadec/parseinstrs.py:436-442 | All slots of the new table mean what the old entry meant. |
| TrieBuilder.Trie.Redirect | subprojects/fadec/parseinstrs.py:443 | Pointing the slot to that table keeps the tree and all meanings. |
| TrieBuilder.Trie.ConsumeSlot | subprojects/fadec/parseinstrs.py:433-445 | The frontier slot is replaced by exactly the slots that the indices lead to. |
| TrieBuilder.Trie.ExpandLevel | subprojects/fadec/parseinstrs.py:424-446 | After a kind is consumed, a vector stands on a frontier slot exactly if it matches so far, even though the index list of one slot stays in force for the later ones. |
| TrieBuilder.Trie.SplitLevels | subprojects/fadec/parseinstrs.py:423-446 | After all kinds the frontier is where exactly the matching vectors end, and no meaning has changed. |
| TrieBuilder.Trie.WriteLeaves | subprojects/fadec/parseinstrs.py:447-453 | It stops exactly if a strong instruction stands on the frontier and the new one is strong; otherwise empty and weak slots are written and all others kept. |
| TrieFrontier.FrontierKept | subprojects/fadec/parseinstrs.py:433-443 | Splitting a slot of the frontier moves no vector that has come this far. |
| TrieFrontier.WrittenWalk | subprojects/fadec/parseinstrs.py:447-453 | Writing the leaves changes the walk of exactly the matching vectors, and each to the new instruction unless a strong one was there. |
| TrieMeaning.ClashIffConflict | subprojects/fadec/parseinstrs.py:449-453 | A strong entry is in the way exactly if an earlier strong pattern shares an index vector with the new one. |
| TrieMeaning.MeansWritten | subprojects/fadec/parseinstrs.py:447-453 | A trie that means the patterns so far means them and the new one afterwards: the strong match, else the last weak match, else nothing. |
| TrieBuilder.Trie.AddOpcode | subprojects/fadec/parseinstrs.py:421-453 | Succeeds exactly if no earlier strong pattern conflicts; then the unshared tree means the old list followed by this pattern. |
| TrieReduce.UniformSynonym | subprojects/fadec/parseinstrs.py:467-470 | A table whose resolved entries are all equal means what its first entry means. |
| TrieReduce.SharedSynonym | subprojects/fadec/parseinstrs.py:471-474 | A table equal to a kept one of its kind means the same as that one. |
| TrieReduce.Dropped | subprojects/fadec/parseinstrs.py:467-474 | Dropping a table for a synonym keeps the meaning of every finished table, directly or through synonyms. |
| TrieReduce.Stored | subprojects/fadec/parseinstrs.py:460-464 | Keeping a table with its entries resolved does so as well, and no two kept tables are equal. |
| TrieBuilder.Trie.ReduceTable | subprojects/fadec/parseinstrs.py:460-476 | One table is resolved and then skipped, shared or kept; the index of kept tables stays complete and exact. |
| TrieBuilder.Trie.ReduceKind | subprojects/fadec/parseinstrs.py:458-476 | All tables of a kind are finished once all later kinds are. |
| TrieBuilder.Trie.Deduplicate | subprojects/fadec/parseinstrs.py:455-476 | The result is reduced, kept tables mean what they meant for every vector, and each removed one has a kept entry of its meaning. |
| TrieCanonical.Separate | subprojects/fadec/parseinstrs.py:455-476 | Two different entries of a reduced trie are told apart by some vector, which is constructed. |
| TrieCanonical.Sensitive | subprojects/fadec/parseinstrs.py:466-470 | Every kept table is needed: some vector changes its answer when only the index of that kind changes. |
| TrieCanonical.Canonical | subprojects/fadec/parseinstrs.py:455-476 | Entries of a reduced trie have the same meaning if and only if they are the same entry. |
| TriePack.Layout | subprojects/fadec/parseinstrs.py:479-485 | Each kept table gets the sum of the padded lengths before it as offset, removed ones none. |
| TriePack.FillTable | subprojects/fadec/parseinstrs.py:493-496 | The words of one table stand at its offset and no other word changes. |
| TriePack.Fill | subprojects/fadec/parseinstrs.py:489-496 | The words of all kept tables stand at their offsets. |
| TriePack.CompileTables | subprojects/fadec/parseinstrs.py:478-497 | Refuses exactly tables of 0x8000 words or more and trees with an unused mode; otherwise words and root offsets are those of the layout. |
| TrieBuilder.Trie.Compile | subprojects/fadec/parseinstrs.py:478-497 | The same for the trie of the builder after deduplication. |
| TriePack.WordDecodes | subprojects/fadec/parseinstrs.py:493-496 | Taking a stored word apart gives back kind and offset, or the descriptor number modulo 0x2000. |
| DecodeWalk.TableWalk | subprojects/fadec/decode.c:39-49 | One lookup, split into tag and value, represents the entry of the trie that the word was made from. |
| DecodeWalk.StoredIsLoaded | subprojects/fadec/decode.c:41-48 | In the array of 16-bit words made from packed data, every lookup represents the entry it was made from. |
| DecodeWalk.DecodeOpcode | subprojects/fadec/decode.c:243-244 | The opcode byte is taken exactly if a TABLE256 is met and a byte is left. |
| DecodeWalk.DecodeModRM | subprojects/fadec/decode.c:255-261 | The ModRM extension is taken exactly if a TABLE16 is met and a byte is left, and the TABLE8E only behind it. |
| DecodeWalk.Conclude | subprojects/fadec/decode.c:273-281 | The final tag gives the descriptor, an undefined instruction or a partial one. |
| DecodeWalk.DecodeTable | subprojects/fadec/decode.c:242-281 | The C walk over the words does on every input what the descent through the reduced trie does. |
| DecodeCorrect.OpcodeTable | subprojects/fadec/decode.c:242-244 | After an escape the walk meets a TABLE256 exactly if the opcode byte makes a difference to the selected pattern. |
| DecodeCorrect.UnusedTable | subprojects/fadec/decode.c:242 | The root lookup is empty exactly if no pattern exists for the escape. |
| DecodeCorrect.ThirdNot8E | subprojects/fadec/decode.c:256-261 | However many tables were skipped, no TABLE8E is met without a TABLE16 before it. |
| DecodeCorrect.ModRMTable | subprojects/fadec/decode.c:256-258 | Behind the prefix the walk meets a TABLE16 exactly if the ModRM extension makes a difference there. |
| DecodeCorrect.DescentComplete | subprojects/fadec/decode.c:242-281 | With both bytes present the walk answers what the patterns select and steps over the opcode byte, if that byte matters after the escape. |
| DecodeCorrect.DescentWithoutModRM | subprojects/fadec/decode.c:255-274 | Without a ModRM byte the result is partial exactly if that byte would make a difference, and the selected pattern otherwise. |
| DecodeCorrect.DescentWithoutOpcode | subprojects/fadec/decode.c:243-274 | Without an opcode byte the result is partial, or undefined exactly if the escape is unused. |
| DecodeCorrect.DescentStays | subprojects/fadec/decode.c:243-244 | If the opcode byte does not matter after an escape in use, there is an input decoded as an instruction without stepping over it. |
| TableGenerator.RootsKeptIff | subprojects/fadec/parseinstrs.py:535-562 | All modes keep a root table exactly if they differ and none ignores the escape. |
| TableGenerator.AddLine | subprojects/fadec/parseinstrs.py:557-559 | A line is added for the modes it applies to; stopping means that the list has a conflict. |
| TableGenerator.AddAll | subprojects/fadec/parseinstrs.py:537-559 | All lines are added exactly if no two strong patterns of the list conflict, and the trie then means the list. |
| TableGenerator.CompiledServes | subprojects/fadec/parseinstrs.py:561-562 | The compiled words and offsets serve every root that is kept. |
| TableGenerator.Generate | subprojects/fadec/parseinstrs.py:532-562 | From the instruction list to words: stops exactly on a conflict; the trie is reduced and means exactly the list; without an overflow the result is an error exactly if some mode has no line, and all modes keep a root exactly if they differ. |
| TableGenerator.EmptyRootIff | subprojects/fadec/parseinstrs.py:497 | A root entry stays empty exactly if no line is for that mode. |
| TableGenerator.GeneratedDecode | subprojects/fadec/decode.c:242-281 | The descent through the trie: undefined exactly if no pattern matches, and the descriptor of the selected pattern exactly if its number is below 0x2000. |
| TableGenerator.DecodeWords | subprojects/fadec/decode.c:242-281 | End to end on the words: with both bytes the selected pattern's descriptor and the step over the opcode byte; with the ModRM byte missing partial exactly if it would make a difference; with no byte partial, or undefined if the escape is unused. |
| PackLift.BlockLifter.SetReg | subprojects/rellume/src/regfile.cc:405-434 | The register becomes dirty, and the sets stay those of the code so far. |
| PackLift.BlockLifter.PackRegs | subprojects/rellume/src/callconv.cc:214-242 | All registers but the host registers are stored and become clean; the pack records which were dirty before. |
| PackLift.BlockLifter.Unpack | subprojects/rellume/src/callconv.cc:244-265 | All registers are read back; the dirty and cleaned sets stay those of the code so far. |
| PackLift.BlockLifter.CallFn | subprojects/rellume/src/callconv.cc:291-327 | A call packs, calls and unpacks; a tail call packs and leaves. |
| PackLift.BlockLifter.Return | subprojects/rellume/src/callconv.cc:267-283 | A return packs and leaves. |
| PackFlow.PushAll | subprojects/rellume/src/callconv.cc:353-359 | Exactly the successors are added, none twice. |
| PackFlow.VisitBlock | subprojects/rellume/src/callconv.cc:340-364 | A visit keeps recorded sets justified by paths and blocks outside the queue up to date, and either uses up room to grow or queues nothing. |
| PackFlow.Round | subprojects/rellume/src/callconv.cc:339-365 | So does a round over all queued blocks. |
| PackFlow.Analyze | subprojects/rellume/src/callconv.cc:329-366 | The worklist ends; for exactly the reachable blocks pre is the union of the predecessors' post, post the flow equation, and a register is in post exactly if some path makes it dirty. |
| PackFlow.LeastSolution | subprojects/rellume/src/callconv.cc:338-366 | The result is below every other assignment that satisfies the flow inclusions. |
| PackSemantics.ErasePacks | subprojects/rellume/src/callconv.cc:368-377 | Each pack is left with exactly the stores of registers that may be dirty there. |
| PackSemantics.OptimizePacks | subprojects/rellume/src/callconv.cc:329-378 | Analysis and deletion together. |
| PackSemantics.CleanStep | subprojects/rellume/src/callconv.cc:214-265 | After every instruction each register outside the dirty set agrees with its slot in the struct. |
| PackSemantics.SameStep | subprojects/rellume/src/callconv.cc:368-377 | A store of a register that agrees with its slot changes nothing when it is deleted. |
| PackSemantics.SameExec | subprojects/rellume/src/callconv.cc:368-377 | A block ends in the same state with and without the deleted stores. |
| PackSemantics.StoresDeleted | subprojects/rellume/src/callconv.cc:329-378 | On every path from the entry, for every world and start, the function with deleted stores reaches the same state, with the same struct and host registers seen at every call and return. |
| PackSemantics.Assemble | subprojects/rellume/src/function.cc:182-216 | The blocks that the lifter built, with the sets of their register files and all their packs, meet what the analysis asks of a function. |
| PackSemantics.OptimizeLifted | subprojects/rellume/src/function.cc:182-216 | For every function that the lifter built, each pack is left with the stores of registers that may be dirty, and every path goes through the same states. |
| FieldMap.CreateSptrMap | server/callconv.cc:145-154 | The array names, for every byte, the field that starts there, or that the byte is inside one, or that there is none. |
| FieldMap.GetFieldOk | server/callconv.cc:166-168 | The lookup is right for every offset, also behind the array. |
| FieldMap.Touches | server/callconv.cc:630-632 | The loop over the bytes of an access finds a field exactly if the access overlaps one. |
| Converter.CCState.FoldLoads | server/callconv.cc:178-208 | Exactly the loads at the start of a field that come before any write are replaced by parameter or call result; it stops only at such a load of another size. |
| Converter.CCState.FoldAllLoads | server/callconv.cc:598-601 | This holds from the entry and behind every call. |
| Converter.CCState.ScanInst | server/callconv.cc:620-661 | One use lets the struct pointer escape exactly if it reads or partly writes a field, or passes the struct pointer on. |
| Converter.CCState.Scan | server/callconv.cc:603-672 | The scan reports an escape exactly if some use is one, and otherwise has collected exactly the stores to whole fields. |
| Converter.CCState.FoldStores | server/callconv.cc:229-282 | Exactly the stores to fields in front of a call or return, back to the nearest read of the struct, are taken out with their values; it stops only at one of another size or at a second one to the same field. |
| Converter.CCState.FoldAllStores | server/callconv.cc:674-693 | This holds for every call and return, and the remaining set of stores is what was not taken. |
| Converter.CCState.EscapeIff | server/callconv.cc:671-698 | The struct pointer counts as escaping exactly if something that touches a field is left in the code. |
| Converter.CCState.LeaksIff | server/callconv.cc:671-698 | That is decided by the original function: an access that touches a field and can be neither replaced nor folded, or a use of the struct pointer itself. |
| Converter.CCState.Accepts | server/callconv.cc:698-709 | Once loads and stores are folded, the conversion is possible exactly if the pointer escapes or the entry block has no call or return. |
| Converter.CCState.MissingPhis | server/callconv.cc:706-723 | A PHI is made for exactly the values that no store gives. |
| PhiWiring.FromPred | server/callconv.cc:734-753 | A PHI gets from a predecessor what its last producer made, or the predecessor's PHI, which is made and queued if there is none. |
| PhiWiring.WireOne | server/callconv.cc:729-755 | One round finishes a PHI without disturbing others; queue or missing PHIs shrink. |
| PhiWiring.WirePhis | server/callconv.cc:725-755 | The worklist ends with at most one PHI per block and field, each with a value from every predecessor and none without need. |
| Converter.CCState.Wire | server/callconv.cc:698-756 | All values that are missing get a complete net of PHIs. |
| Converter.CCState.Rewrite | server/callconv.cc:758-766 | Every call and return takes its folded values, and for the others a reload, a parameter or a PHI. |
| Converter.CCState.Convert | server/callconv.cc:598-768 | Succeeds exactly if the original function gives no reason to stop; the result is a promoted form of it with every known load and foldable store gone, spilling exactly if the original lets the struct pointer escape. |
| Converter.ChangeCallConv | server/callconv.cc:378-768 | The same from a table of fields. |
| PromoteExact.NoHazardWithoutEscape | server/callconv.cc:695-698 | Without escape no kept store can touch a folded field. |
| PromoteExact.WholeWithoutEscape | server/callconv.cc:695-698 | Without escape the original function tears no field. |
| PromoteProof.Handed | server/callconv.cc:284-311 | The values handed over, put into the struct, give exactly the struct of the original function. |
| PromoteTheorem.ThroughBlock | server/callconv.cc:178-300 | Across a block the two functions compute the same values and see the same events. |
| PromoteTheorem.EnterOk | server/callconv.cc:725-755 | Across an edge the PHIs take the values of their fields. |
| PromoteTheorem.PathPreserved | server/callconv.cc:598-768 | Along a path on which no kept store touches a folded field, original and converted function agree, and so do struct, results and PHIs behind every block. |
| PromoteHazard.TornIff | server/callconv.cc:229-282 | A kept store touches a folded field somewhere in the converted block exactly if the original block tears a field. |
| PromoteExact.CallConvPreserved | server/callconv.cc:598-768 | Along every path on which the original function tears no field, for every world, original and converted function compute the same values and hand over the same struct at each call and return, with escape and without. |
| PromoteExact.TornHurts | server/callconv.cc:265-276 | If the stored values are unrelated, a path to a torn field has a world and start from which the two functions hand over different structs. |
| PromoteExact.PreservedIff | server/callconv.cc:598-768 | For functions with unrelated stored values the two functions agree on a path, in every world and from every start, if and only if no field is torn on it. |
| PromoteExact.RelatedValues | server/callconv.cc:265-276 | A function that tears a field and is right nevertheless, since it stores a byte that is already there. |
| PromoteHazard.HazardHurts | server/callconv.cc:265-276 | If a kept store touches a field behind a folded store, some state and world make the handed-over value wrong. |
| PromoteHazard.HandedOverIff | server/callconv.cc:229-282 | A folded store is what the slot holds at the call, for every state and world, if and only if the original block has no store behind it that touches the field without being to the start of one. |
| PromoteHazard.PartialStore | server/callconv.cc:265-276 | The concrete case: a whole field is stored, then its second byte; the return hands over the first value. |
| InstrFlow.ServerTargets | server/decode.cc:10-164 | The server's classification sends control to the same addresses as the lifter's kinds and jump targets. |
| CodeReach.ClosedContains | subprojects/rellume/src/lldecoder.cc:48-113 | A set that contains the entry and is closed under control flow contains every reached address. |
| BlockDecoder.DecodeRun | subprojects/rellume/src/lldecoder.cc:55-92 | A run is decoded until control leaves, nothing can be decoded, or a known address is met, with every target queued. |
| BlockDecoder.CutAt | subprojects/rellume/src/lldecoder.cc:103-108 | The block is cut in two, and the address map names the right block and index for every instruction. |
| BlockDecoder.SplitAt | subprojects/rellume/src/lldecoder.cc:98-109 | The address that was met becomes the start of a block; all earlier starts remain. |
| BlockDecoder.Process | subprojects/rellume/src/lldecoder.cc:49-109 | One round keeps blocks, map and queue consistent, and decodes something new or shortens the queue. |
| BlockDecoder.DecodedAll | subprojects/rellume/src/lldecoder.cc:48-113 | With an empty queue the decoded addresses are exactly the reached ones. |
| BlockDecoder.StartsAreLeaders | subprojects/rellume/src/lldecoder.cc:95-109 | Block starts are exactly the leaders: entry, targets, and addresses that two decoded instructions run into. |
| BlockDecoder.Decode | subprojects/rellume/src/lldecoder.cc:48-113 | It ends; every reached instruction is decoded once; the blocks partition the list into straight runs that control leaves only at the end; starts are the leaders; the map is right. |
| Predecoder.Enqueue | server/rewriteserver.cc:385-401 | Exactly the jump targets join the queue, and the block goes on exactly if control falls through. |
| Predecoder.FlagJustified | server/rewriteserver.cc:355-359 | An instruction met again without having been queued is run into by two instructions. |
| Predecoder.DecodeBlock | server/rewriteserver.cc:350-404 | The inner loop keeps list, map, flags and queue consistent. |
| Predecoder.DecodedAll | server/rewriteserver.cc:349-407 | With an empty queue the decoded addresses are exactly the reached ones. |
| Predecoder.FlagsAreLeaders | server/rewriteserver.cc:353-376 | Flags are exactly at the leaders. |
| Predecoder.Predecode | server/rewriteserver.cc:342-408 | It ends; every reached instruction is listed once; flags are exactly at the leaders; an instruction that is no leader stands behind the one that runs into it. |
| DecoderAgreement.OnlyOneRunsInto | server/rewriteserver.cc:354-380 | In the server's list a non-leader directly follows the one instruction that runs into it. |
| DecoderAgreement.BlockAgrees | subprojects/rellume/src/lldecoder.cc:95-109 | A block of the lifter stands in the server's list as one run with a flag on its first instruction alone. |
| DecoderAgreement.DecodersAgree | server/rewriteserver.cc:342-408 | Both decoders find the same addresses, the same leaders and the same blocks, in spite of different queues. |
| OpcodeBytes.SizeIsCount | subprojects/fadec/encode.c:66-89 | opc_size is the number of bytes that enc_opc writes, and at most 11. |
| OpcodeBytes.Buffer.EncOpc | subprojects/fadec/encode.c:91-139 | Exactly the bytes of the opcode word are appended to the buffer. |
| PrefixDecode.PrefixesSeen | subprojects/fadec/decode.c:151-182 | The prefixes that the encoder writes set exactly the decoder's variables for them. |
| OpcodeRoundTrip.NoSuchSegment | subprojects/fadec/encode.c:95-96 | With segment number 7 a zero byte is written, and the head is never read back. |
| OpcodeRoundTrip.TakenForPrefix | subprojects/fadec/decode.c:151-177 | An opcode byte that is a prefix is never read back as the opcode. |
| OpcodeRoundTrip.TakenForEscape | subprojects/fadec/decode.c:187-240 | Nor is one that looks like an escape or the start of VEX. |
| OpcodeRoundTrip.HeadRoundTrip | subprojects/fadec/decode.c:117-240 | For every opcode word and whatever follows, the decoder recovers segment, address size, REX or VEX fields, prefixes and escape if and only if the word is plain. |
| OpcodeRoundTrip.ReadHead | subprojects/fadec/decode.c:117-240 | The code up to the opcode byte recovers every opcode word whose bytes the buffer starts with, if and only if the word is plain. |
| MemOperand.FeMemParts | subprojects/fadec/fadec-enc.h:30 | The accessors take a memory operand apart into the parts it was made from. |
| OperandRoundTrip.ScaleIsLog | subprojects/fadec/encode.c:207-209 | The scale code is the logarithm of the scale. |
| OperandRoundTrip.RegisterReadBack | subprojects/fadec/decode.c:359-370 | A register operand is parsed back. |
| OperandRoundTrip.MemoryReadBack | subprojects/fadec/decode.c:371-426 | A memory operand is parsed back to the same base, index, scale and displacement, with rsp/r12, rbp/r13, no base, RIP and vector index included. |
| OperandRoundTrip.InstructionRoundTrip | subprojects/fadec/decode.c:354-427 | For every instruction that enc_mr accepts the decoder finds the same head, register and memory operand, and the right length. |
| OperandRoundTrip.RipReaches | subprojects/fadec/encode.c:219-226 | With RIP as base, end of instruction plus displacement is the requested location modulo 2^32, and as signed numbers exactly if the adjustment does not overflow. |
| Encoder.LoadBytes | subprojects/fadec/encode.c:146-147 | Loading the written bytes gives the low bytes of the value. |
| Encoder.ImmRoundTrip | subprojects/fadec/encode.c:56-64 | A value is accepted for a size exactly if the decoder gets it back from that many bytes. |
| Encoder.EncImm | subprojects/fadec/encode.c:141-149 | Accepts exactly what fits and appends its bytes. |
| Encoder.EncMr | subprojects/fadec/encode.c:165-254 | Accepts exactly the operands that have a form, and appends that form's bytes; nothing is written otherwise. |
| FullInstruction.EncodeInstruction | subprojects/fadec/encode.c:383-402 | One descriptor with a ModRM operand and an immediate: accepted exactly if the immediate fits and the operands have a form, and then exactly their bytes are appended; nothing is written otherwise. |
| FullInstruction.FullRoundTrip | subprojects/fadec/decode.c:499-540 | At most fifteen bytes, and whatever follows, the decoder finds head, register, operand and length, and the immediate exactly if the encoder accepts it. |
| Wire.HdrBack | client/translator.c:19-40 | A header is read as it was written. |
| Wire.PairBack | client/translator.c:125-129 | So is the pair of a memory request. |
| ProtocolInv.RunKeeps | server/connection.cc:282-311 | The invariant, which says for each pair of program points what is buffered and in the pipes, holds throughout every run in mode 0. |
| ProtocolSafety.InvFramed | server/connection.cc:61-66 | No assertion and no protocol check fails, nothing of a message is unread at the next one, and the client never sends while it holds a header back. |
| ProtocolSafety.InvPeek | client/translator.c:108-122 | Headers other than the one asked for come only where the client looks for a memory request and gets an object. |
| ProtocolSafety.InvLive | server/connection.cc:82-94 | Nothing is unflushed while the server waits, and client or server can go on, or both are done. |
| ProtocolSafety.ClientMoves | client/translator.c:108-156 | A client that writes, chooses or has the bytes it waits for has a step to take. |
| ProtocolSafety.ServerMoves | server/connection.cc:282-311 | So has a server that writes, works or has the bytes it waits for. |
| ProtocolSafety.InvFaithful | client/translator.c:82-156 | Addresses are served in the order asked, objects arrive as sent, cached pages are the client's. |
| ProtocolSafety.ModeMatters | server/connection.cc:288-295 | In every mode other than 0 there is a run in which the client gives up. |
| ProtocolSafety.EveryRun | client/translator.c:108-156 | In every state of every run in mode 0 all four promises hold, and client or server has a step to take unless both are done. |
| RemoteMemory.Memory.GetPage | server/connection.cc:187-208 | A page comes from cache or client, is the client's, and is cached exactly if it can be read. |
| RemoteMemory.Memory.Get | server/connection.cc:211-225 | Returns exactly the bytes of a direct read from start to end or to the first unreadable page, whatever was cached, if and only if the end is in front of the last page or the memory has an unreadable page behind the start; otherwise it returns more, or never ends exactly if all memory can be read. |
| RemoteMemory.EmptyRead | server/connection.cc:215 | A read of no bytes at the end of the address space, if the last page can be read, is not answered with nothing. |
| CodeTable.EmptyMeansAbsent | client/rtld.c:776-780 | An empty slot on the path of an address: the address is not in the table. |
| CodeTable.AllPassed | client/rtld.c:508-522 | A path without empty slot that misses the address: the table is full and does not have it. |
| CodeTable.Put | client/rtld.c:513-519 | Filling the first empty slot of a path keeps every address reachable on its own path. |
| CodeTable.Table.Set | client/rtld.c:498-523 | Refines insertion into a map: EINVAL exactly for 0, EEXIST exactly if present, ENOSPC exactly if absent and full, and otherwise exactly this entry is added. |
| CodeTable.Table.Resolve | client/rtld.c:771-788 | Finds exactly the entries of the map. |
| TableReaders.ReadersSafe | client/rtld.c:498-523 | With one writer, in every state of every run a reader's hit is the published entry, a miss means that the address was not there when the reader started, and entries never change. |
| Dispatch.Dispatcher.AddObject | client/rtld.c:712-749 | Functions with new addresses are added one after the other, up to the first that cannot be; the result is success exactly if there is none or that one has no address, and otherwise it is in the table already or the table is full. |
| Dispatch.Dispatcher.Resolve | client/dispatch.c:53-111 | The result is the table's entry for the address, of the call site if there is one; the quick TLB keeps agreeing with the table. |
| Dispatch.Dispatcher.Dispatch | client/dispatch.c:116-129 | Hit or not, the function called is the table's entry for the address; one that is not in the table is called exactly for address 0 while its slot of the quick TLB is unused. |
| Dispatch.Dispatcher.Run | client/dispatch.c:131-135 | In a run of any length every call of an address goes to the one entry that the table has for it; address 0 is called exactly until its slot is used. |
| Dispatch.DispatchNull | client/dispatch.c:116-129 | A fresh dispatcher answers address 0 with function 0. |
| Dispatch.HashOfWord | client/dispatch.c:36-51 | The hash of a word by shift and mask is the hash of its number. |
| Dispatch.AssemblyIndex | client/dispatch.c:185-190 | Masking in place and scaling gives 16 times the hash, for all four permitted bit offsets. |
| Relocation.OutsideKept | client/rtld.c:49-59 | Bits outside the field of the relocation are unchanged, for every kind. |
| Relocation.Reloc64 | client/rtld.c:352-381 | Whole words become the symbol, or its distance. |
| Relocation.Reloc32Relative | client/rtld.c:358-386 | Applied exactly if the distance fits 32 signed bits and is not the largest, and then place plus sign-extended field is the target. |
| Relocation.Reloc32Absolute | client/rtld.c:368-377 | Applied exactly if the symbol fits the field and is not the largest value, and then the field extends to the symbol, signed or unsigned. |
| Relocation.OneShort32 | client/rtld.c:27-28 | The signed check for 32 bits accepts exactly what fits, except the largest value. |
| Relocation.OneShort28 | client/rtld.c:27-28 | The same for 28 bits. |
| Relocation.OneShort21 | client/rtld.c:27-28 | The same for 21 bits. |
| Relocation.OneShortU32 | client/rtld.c:29 | The unsigned check for 32 bits accepts exactly what fits, except the largest value. |
| Relocation.BuiltUp | subprojects/farmdec/decode.c:254-276 | One MOVZ and three MOVK to a register leave the four half-words in it, whatever it held. |
| Relocation.StubReaches | client/rtld.c:321-341 | The moves of a stub, executed on a register of any contents, leave the symbol in x16, and the stub ends with a branch to x16. |
| Relocation.RelocBranch | client/rtld.c:387-401 | Applied exactly if the distance to the symbol, or else to the stub, fits 28 bits and is not the largest; the decoded branch leads there exactly if the distance is a multiple of four. |
| Relocation.RelocAdrp | client/rtld.c:402-409 | Applied exactly if the distance of the pages fits 21 bits and is not the largest; the decoded offset is that distance. |
| Relocation.RelocAdrpAdd | subprojects/farmdec/decode.c:181-212 | ADRP and ADD, patched and decoded, give the symbol exactly if the ADD has no shift or the symbol starts a page. |
| Relocation.RelocAdrpLdst | subprojects/farmdec/decode.c:1576-1586 | ADRP and a scaled load or store, patched and decoded, give the symbol exactly if it is aligned to the access and the upper offset bits were clear. |
| Relocation.RelocMovOne | subprojects/farmdec/decode.c:254-276 | A patched move has the half-word in question and keeps kind, place and register. |
| Relocation.RelocMov | subprojects/farmdec/decode.c:254-276 | Four patched moves, executed, leave the symbol in their register. |
| RelocatedCode.BranchEnds | client/rtld.c:387-401 | A relocated B or BL, run together with the stub if there is one, ends at the symbol exactly if the encoded distance is a multiple of four. |
| RelocatedCode.MovesReach | subprojects/farmdec/decode.c:254-276 | A MOVZ and any number of MOVKs to a register, to any places in any order, patched and run, leave the symbol there exactly if each half-word that no move writes is zero. |
| Relocation.Patch | client/rtld.c:790-801 | Only the field changes, and a relocation that fails leaves the code as it is. |
| Rounding.FloorExact | client/math.c:11-39 | The result has the sign of the argument, and the magnitude rounded down, or up if negative. |
| Rounding.CeilExact | client/math.c:41-69 | The same upwards. |
| Rounding.RoundExact | client/math.c:71-105 | The magnitude is rounded to the nearest integer, halves away from zero. |
| Rounding.TruncExact | client/math.c:107-135 | The magnitude is rounded down. |
| Rounding.NotFinite | client/math.c:11-135 | Infinities and NaNs come out as they are. |
| Rounding.RoundingIsExact | client/math.c:11-135 | For every finite pattern of the format, zeros and subnormals included, the results are integers of the same sign and the exact floor, ceiling, truncation and nearest integer with ties away from zero. |
| Rounding.FloatAndDouble | client/math.c:4-9 | The two formats meet what the theorems need of a format. |
| Arena.Arena.constructor | client/memory.c:23-36 | A fresh arena is valid and empty. |
| Arena.PagesFit | client/memory.c:49-51 | The end check with brk refuses exactly if the pages do not fit behind brkp. |
| Arena.GuardIs | client/memory.c:45-51 | With sums modulo 2^64 the two checks pass a block exactly if its wrapped end is in the arena, or in the last page of the address space while brk is at a page. |
| Arena.PastTheEnd | client/memory.c:45-51 | Every fresh arena passes a request of 2^64 - 1 bytes. |
| Arena.Arena.Alloc | client/memory.c:38-59 | For every request: EINVAL exactly for bad alignments, ENOMEM exactly if the wrapped end is not accepted, EACCES exactly if pages are needed and refused; a block handed out lies in the free part of the arena if and only if it ends before the last page of the address space, and then blocks stay aligned, disjoint and in accessible pages and ENOMEM means that it does not fit. |

## Left out

- LLVM: lifters, optimisation passes, code generation and the GEP passes; instructions of the promoted functions are loads, stores, calls, returns and opaque values.
- Kernel, processes and files: mmap, mprotect, fork, ELF parsing, system call emulation, the object cache and its hashes; their answers are parameters.
- 32-bit mode of fadec, the generated instruction descriptors, the alternative chain of fe_enc64_impl, enc_o, and encode2.c.
- SIMD, floating-point and system groups of farmdec, and the other host instruction sets.
- Decode stop modes INSTR and BASICBLOCK, granularities 0 and 1, and the SHA-1 input of Predecode.
- Register save and restore code in the dispatchers; only the index arithmetic of the quick TLB is there.
- fma and fmaf, which the source marks as not fused.
- Concurrent writers of the code table, which the source does not support; memory ordering appears as an interleaving in which the address is stored after the entry.
- TrieBuilder.Trie.AddOpcode: what the trie holds after a failure is not stated, since the generator stops there.
- TableGenerator.Generate: descriptors are numbers given with the lines; their deduplication and encoding are not modelled.
- DecodeCorrect.DescentComplete: only for escapes after which the opcode byte makes a difference; DescentStays shows what happens for the others.
- TableGenerator.DecodeWords: the same condition.
- PackLift.BlockLifter.Unpack: facets of a register other than the one with a slot, and the positions of host registers in argument lists, are not modelled.
- PackSemantics.StoresDeleted: a block is straight code; what makes control take an edge is not modelled, so that the theorem holds on all paths.
- Converter.CCState.Scan: uses of the struct pointer through casts and address computations are taken as resolved to offsets, so that the walk over the use graph is a walk over the instructions.
- Converter.CCState.Rewrite: positions of fields in argument and result lists and the extra RBP result are not modelled; the stores of CreateStores are a flag of the function that makes fields appear in the struct at entry and behind calls.
- Converter.CCState.Convert: a block has at most one call or return, as the lifter makes it and the source asserts; replaced loads become copies instead of rewriting all uses.
- PromoteHazard.HazardHurts: from a state in the middle of a block; PromoteExact.TornHurts is the statement from the function's entry.
- PromoteExact.PreservedIff: only for functions that store no loaded value and compute each value by an operation of its own; RelatedValues shows that the equivalence fails without this. CallConvPreserved needs no such condition.
- PromoteExact.TornHurts: the same condition.
- InstrFlow.ServerTargets: instructions are given with length, kind and target; the switches over mnemonics are reduced to that.
- OperandRoundTrip.InstructionRoundTrip: opcode words have no REX bits for operands and no fixed ModRM byte, as in the generated tables; operand sizes and register classes come from the descriptors, which are not modelled.
- FullInstruction.FullRoundTrip: the size of the immediate is given, where the decoder takes it from the descriptor; the address added to offsets of jumps is not modelled.
- FullInstruction.EncodeInstruction: the choice among alternative descriptors and the checks of operand classes are not modelled; immediates are given as computed.
- Encoder.EncMr: immediates of at most eight bytes, and a buffer with room for fifteen bytes, as the header asks for.
- ProtocolInv.RunKeeps: pipes hold any number of bytes, and reads and writes of the standard I/O library are complete; a client write that faults sends nothing, as requests are for whole pages.
- RemoteMemory.Memory.Get: the client's memory does not change between requests.
- RemoteMemory.Memory.GetPage: the exchange of request and answer is a function of the page; Protocol has it message by message.
- CodeTable.Table.Set: base and size of the object, which nothing reads back, are not stored.
- Dispatch.Dispatcher.AddObject: symbols are given as pairs of address and entry; a name with a digit that is not octal gives address 0.
- Relocation.RelocMov: the moves are a MOVZ and three MOVK to one register with places 0, 16, 32 and 48 in this order; RelocatedCode.MovesReach is the statement for any chain.
- RelocatedCode.MovesReach: each relocation is the one for the place of its move, as compilers emit them.
- Rounding.RoundingIsExact: numbers are counted in units of the smallest subnormal, and masks are written as clearing low bits by division.
- Arena.Arena.constructor: the reserved range does not contain the last page of the address space.
