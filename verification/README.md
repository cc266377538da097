# Verified models of the load generator, its runtime and the post join

The social network benchmark drives its services with a load generator, wrk2, that brings along an HTTP parser, a latency
histogram and LuaJIT; among the services, the one that composes posts joins six concurrent calls. This project models the
hard parts of these in Dafny and proves what they are for. Code that changes state step by step is modelled by classes and
methods that do so, each proved against a specification function or a relation; the theorems are about those.

- **Allocator** (`Alloc*.dfy`, `LjAlloc.dfy`): chunks with boundary tags that tile segments, lists of small chunks, bitwise
  tries and rings of large ones, a designated victim and a top chunk. `malloc`, `free` and `realloc` keep one invariant of
  the whole heap, and allocation is best fit.
- **HTTP parser** (`Http*.dfy`): the state machine over single bytes; what it reports however the input is cut into buffers;
  the invariant behind its assertions; round trips of message bodies; and the loop that skips over whole tokens.
- **DynASM** (`DynAsm*.dfy`): three passes over a program of templates. Pass 1 threads references through the buffer, pass 2
  shrinks branches and padding, pass 3 writes the bytes; they agree on every size, and every branch reaches its label.
- **Bytecode dumps** (`Bc*.dfy`): a writer that patches and fills in lengths after the fact, a reader with a stack of
  prototypes, and the grammar between them: loading what was dumped gives the prototype tree back.
- **Register shuffle** (`Asm*.dfy`): the moves at the head of a side trace perform a parallel copy.
- **Histogram** (`Hdr*.dfy`): log-linear slots, their precision, recording, order statistics, iteration and merging.
- **Sorting** (`LuaSort.dfy`): `table.sort`, in place, for any comparison function.
- **Pattern matching** (`LuaChars.dfy`, `LuaPattern.dfy`, `LuaDefects.dfy`, `LuaMatch.dfy`, `LuaFind.dfy`): what a Lua
  pattern allows, which of the allowed matches is taken, which errors can arise, the backtracking matcher with its captures
  in one array, and `string.find` and `string.match` on top of it.
- **Composing a post** (`Compose*.dfy`): six concurrent uploads meet at a counter; the last one composes, stores and
  publishes, and workers in each region fan out. A state machine over all interleavings of all requests and workers.

`Arith.dfy` has the laws of powers and division that the others share, `Options.dfy` a value that may be missing.

## Model

| member | source | states |
|---|---|---|
| LjAlloc.MallocState.constructor | socialnetwork/wrk2/deps/luajit/src/lj_alloc.c:1138-1160 | the state that is built first is valid, with one segment, a top chunk filling it and nothing binned |
| LjAlloc.MallocState.Malloc | socialnetwork/wrk2/deps/luajit/src/lj_alloc.c:1174-1255 | keeps the whole heap invariant; the block was not live, holds the padded request with less than a chunk to spare, and no live block moves or changes size; it is null exactly if nothing binned, neither the designated victim nor the top holds it and the system gives nothing; a binned chunk is taken only if none smaller would have done |
| LjAlloc.MallocState.Free | socialnetwork/wrk2/deps/luajit/src/lj_alloc.c:1257-1326 | keeps the heap invariant over all merges with free neighbours, the designated victim and the top; the block is no longer live and all others stay as they are; the null pointer changes nothing |
| LjAlloc.MallocState.Realloc | socialnetwork/wrk2/deps/luajit/src/lj_alloc.c:1328-1376 | keeps the heap invariant; in place exactly if the chunk is long enough or the top can be grown into; otherwise a new block; either way the bytes that both hold are the old ones, and nothing is stored outside the new block; on failure, whose exact condition is stated, nothing changes |
| LjAlloc.MallocState.AllocF | socialnetwork/wrk2/deps/luajit/src/lj_alloc.c:1378-1388 | the entry point: what its three cases promise, with the exact condition for null, that a block handed out was not live before, and that a block resized keeps its bytes |
| LjAlloc.MallocState.TmallocLarge | socialnetwork/wrk2/deps/luajit/src/lj_alloc.c:1042-1104 | takes the least binned tree chunk that holds the request, and declines, leaving everything as it was, exactly when none fits or the designated victim fits at least as well |
| LjAlloc.MallocState.TmallocSmall | socialnetwork/wrk2/deps/luajit/src/lj_alloc.c:1106-1134 | takes a chunk of the least size binned in any tree |
| LjAlloc.MallocState.InsertSmallChunk | socialnetwork/wrk2/deps/luajit/src/lj_alloc.c:588-601 | one more chunk in the list that its size selects; lists, trees, rings and bitmaps stay exact |
| LjAlloc.MallocState.UnlinkSmallChunk | socialnetwork/wrk2/deps/luajit/src/lj_alloc.c:603-613 | the chunk leaves its list, the bitmap bit goes with the last one |
| LjAlloc.MallocState.UnlinkFirstSmallChunk | socialnetwork/wrk2/deps/luajit/src/lj_alloc.c:616-626 | takes the first chunk of the bin |
| LjAlloc.MallocState.InsertLargeChunk | socialnetwork/wrk2/deps/luajit/src/lj_alloc.c:641-678 | the trie of the bin gains the size, or its ring a chunk; all bins stay exact |
| LjAlloc.MallocState.UnlinkLargeChunk | socialnetwork/wrk2/deps/luajit/src/lj_alloc.c:680-724 | the chunk leaves its ring or the trie, whatever its place there; all bins stay exact |
| LjAlloc.FindSlot | socialnetwork/wrk2/deps/luajit/src/lj_alloc.c:654-676 | the descent ends at the node of the same size if there is one, else at the empty slot where inserting puts it |
| LjAlloc.MallocState.PrependAlloc | socialnetwork/wrk2/deps/luajit/src/lj_alloc.c:814-845 | a block at the start of a range in front of a segment, its rest merged with the first chunk there |
| LjAlloc.MallocState.AddSegment | socialnetwork/wrk2/deps/luajit/src/lj_alloc.c:847-893 | the old top is closed with record and fenceposts, its remainder binned, and the new range is the top |
| LjAlloc.MallocState.AllocSys | socialnetwork/wrk2/deps/luajit/src/lj_alloc.c:895-955 | new memory extends the top, is prepended to a segment or becomes one; null exactly if the size overflows or the system refuses |
| AllocTheorems.ChunksTile | socialnetwork/wrk2/deps/luajit/src/lj_alloc.c:304-394 | each address of a segment belongs to one chunk and to no other |
| AllocTheorems.BlocksAreSafe | socialnetwork/wrk2/deps/luajit/src/lj_alloc.c:320-394 | a byte of a live block is in no other live block, in no chunk header and in no foot word in use |
| AllocTheorems.FreeChunksSeparated | socialnetwork/wrk2/deps/luajit/src/lj_alloc.c:1257-1326 | between any two free chunks, the designated victim and the top included, lies a used one |
| AllocTheorems.FreeChunksArePlaced | socialnetwork/wrk2/deps/luajit/src/lj_alloc.c:586-736 | a chunk is free exactly if it is the top, the designated victim or in the list of its size, and in one of these places, once |
| AllocTheorems.BitmapsExact | socialnetwork/wrk2/deps/luajit/src/lj_alloc.c:556-580 | a bit is set exactly if the bin holds a chunk |
| AllocHeap.FreedOk | socialnetwork/wrk2/deps/luajit/src/lj_alloc.c:1257-1326 | merging a chunk with its free neighbours keeps tiling, tags and feet |
| AllocHeap.CarveOk | socialnetwork/wrk2/deps/luajit/src/lj_alloc.c:1042-1104 | splitting a free chunk in two keeps tiling, tags and feet |
| AllocHeap.NewSegmentOk | socialnetwork/wrk2/deps/luajit/src/lj_alloc.c:847-893 | closing the old top keeps tiling, tags and feet |
| AllocTrie.IndexRange | socialnetwork/wrk2/deps/luajit/src/lj_alloc.c:527-552 | a size lies in the range of the bin that its index selects |
| AllocTrie.IndexMono | socialnetwork/wrk2/deps/luajit/src/lj_alloc.c:527-552 | greater sizes never have lower indices |
| AllocTrie.BinAbove | socialnetwork/wrk2/deps/luajit/src/lj_alloc.c:527-552 | everything a bin can hold is below what any later bin holds |
| AllocTrie.ShiftedBits | socialnetwork/wrk2/deps/luajit/src/lj_alloc.c:544-547 | the shift with which a descent starts brings the first undecided bit of the size to the top |
| AllocTrie.BitStep | socialnetwork/wrk2/deps/luajit/src/lj_alloc.c:656-661 | the top bit tells the half of the range, and shifting it out leaves that half to be decided |
| AllocTrie.RemoveOk | socialnetwork/wrk2/deps/luajit/src/lj_alloc.c:680-724 | moving a leaf into the hole leaves a bitwise trie with exactly the other sizes |
| AllocTreeOps.InsertLeafOk | socialnetwork/wrk2/deps/luajit/src/lj_alloc.c:654-676 | linking a new leaf into the pointers is inserting the size into the trie |
| AllocUnlink.UnlinkLastOk | socialnetwork/wrk2/deps/luajit/src/lj_alloc.c:680-724 | what the pointer writes do to the last chunk of a size is removing it from the trie |
| AllocUnlink.UnlinkHeadOk | socialnetwork/wrk2/deps/luajit/src/lj_alloc.c:680-724 | the next chunk of the ring takes the place of the one in the tree |
| AllocUnlink.UnlinkSpareOk | socialnetwork/wrk2/deps/luajit/src/lj_alloc.c:680-724 | a chunk that is only in a ring leaves it, and the tree does not notice |
| AllocUnlink.FindLeaf | socialnetwork/wrk2/deps/luajit/src/lj_alloc.c:690-701 | the walk to the rightmost leaf finds the leaf and the slot that holds it |
| AllocSearch.FindLarge | socialnetwork/wrk2/deps/luajit/src/lj_alloc.c:1042-1083 | the walk with its remembered right subtree, the next bins and the leftmost path together find the least size that fits, or that there is none |
| AllocSearch.FindSmallest | socialnetwork/wrk2/deps/luajit/src/lj_alloc.c:1106-1126 | the leftmost path of the lowest marked bin holds the least size of all trees |
| AllocRequest.RequestFits | socialnetwork/wrk2/deps/luajit/src/lj_alloc.c:331-351 | the padded size is aligned, holds the request and its header word, and wastes less than one unit above the minimum |
| HttpParser.Parser.Execute | socialnetwork/wrk2/src/http_parser.c:627-2075 | one call on a buffer, with its inner loops over tokens and bodies, does what the run over single bytes does: same fields, error, consumed count and callbacks; unless more header bytes have been counted than the limit, which is exactly when it fails for that, and never after few bytes |
| HttpParser.FindLineEnd | socialnetwork/wrk2/src/http_parser.c:1542-1565 | the two searches find the first line end within the limit |
| HttpParser.ChunkRun | socialnetwork/wrk2/src/http_parser.c:2000-2021 | reading a stretch of a chunk at once is reading it byte by byte |
| HttpParser.IdentityRun | socialnetwork/wrk2/src/http_parser.c:1872-1906 | reading a stretch of a body at once is reading it byte by byte |
| HttpParser.GeneralRun | socialnetwork/wrk2/src/http_parser.c:1542-1565 | skipping a header value nothing looks at is reading it byte by byte |
| HttpParser.Parser.AtMostOneMark | socialnetwork/wrk2/src/http_parser.c:2055-2059 | of the five marks at most one is set at the end of a call |
| HttpCut.CutIndependence | socialnetwork/wrk2/src/http_parser.c:627-2075 | two buffers leave the same fields, error and consumed total as one; the callbacks, pieces of data joined, are the same exactly if the second buffer does not break off a token that the first left open |
| HttpCut.BreaksIff | socialnetwork/wrk2/src/http_parser.c:627-2075 | that condition, read off the state at the cut and the bytes after it, is the right one for each kind of token |
| HttpRun.AnyCut | socialnetwork/wrk2/src/http_parser.c:627-2075 | input that is taken as a whole is taken, and reported alike, cut into any number of buffers |
| HttpBody.CutCanMatter | socialnetwork/wrk2/src/http_parser.c:1114-1150 | a request line cut in its path, then a byte no URL may hold: the callbacks differ |
| HttpInvariant.StepKeeps | socialnetwork/wrk2/src/http_parser.c:627-2075 | every pass through the switch keeps the invariant |
| HttpInvariant.ExecKeeps | socialnetwork/wrk2/src/http_parser.c:627-2075 | the invariant holds along any run |
| HttpInvariant.InvAsserts | socialnetwork/wrk2/src/http_parser.c:1422-1424 | under the invariant none of the assertions on the way through the switch can fire |
| HttpInvariant.InitOk | socialnetwork/wrk2/src/http_parser.c:2128-2137 | the initial state satisfies the invariant |
| HttpInvariant.EndsWithHeadersIff | socialnetwork/wrk2/src/http_parser.c:1779-1870 | exactly when a message ends with its headers: what headers_complete returns has no part in it |
| HttpInvariant.SkipBodyHasNoEffect | socialnetwork/wrk2/src/http_parser.c:1798-1847 | whatever headers_complete returns, the run is the same |
| HttpWitness.SkippedBodyIsRead | socialnetwork/wrk2/src/http_parser.c:1798-1847 | from the first byte on, a response with Content-Length 5 to a callback that says there is no body: the parser waits for five bytes |
| HttpBody.ChunkedRoundTrip | socialnetwork/wrk2/src/http_parser.c:1920-2036 | any body in non-empty chunks, encoded and cut into any buffers: all bytes are consumed, the body is reported exactly, and one message ends |
| HttpBody.LengthRoundTrip | socialnetwork/wrk2/src/http_parser.c:1872-1918 | a body with its length, cut into any buffers, is reported exactly, and the message ends with it |
| DynAsm.State.constructor | socialnetwork/wrk2/deps/luajit/dynasm/dasm_x86.h:84-160 | an empty program satisfies the invariant of pass 1 |
| DynAsm.State.Put | socialnetwork/wrk2/deps/luajit/dynasm/dasm_x86.h:167-262 | pass 1 records exactly one template with these arguments in the current section; it is accepted exactly if the arguments are in range, the labels exist and local labels referred to backward are known |
| DynAsm.State.PutLabel | socialnetwork/wrk2/deps/luajit/dynasm/dasm_x86.h:237-244 | the chain waiting for a label collapses to its position |
| DynAsm.State.PutRef | socialnetwork/wrk2/deps/luajit/dynasm/dasm_x86.h:213-236 | a reference holds its label, or joins the chain that waits for it |
| DynAsmLabels.DefineOk | socialnetwork/wrk2/deps/luajit/dynasm/dasm_x86.h:239-244 | defining a label keeps the chains and resolves every reference that waited for it to it |
| DynAsmLabels.ReferOk | socialnetwork/wrk2/deps/luajit/dynasm/dasm_x86.h:213-236 | referring to a label keeps the chains |
| DynAsm.State.CheckStep | socialnetwork/wrk2/deps/luajit/dynasm/dasm_x86.h:453-470 | reports the first local label still waited for, or a wrong section, and forgets the others |
| DynAsm.State.Link | socialnetwork/wrk2/deps/luajit/dynasm/dasm_x86.h:266-357 | pass 2 fails exactly if a numbered label is missing, naming the first; otherwise sizes and offsets of all items are final |
| DynAsmLink.ShrinksIff | socialnetwork/wrk2/deps/luajit/dynasm/dasm_x86.h:303-318 | a branch to a label shrinks exactly if it has a short form and the distance known in pass 2 allows it |
| DynAsmLink.ShrunkReaches | socialnetwork/wrk2/deps/luajit/dynasm/dasm_x86.h:303-318 | a branch that pass 2 shrinks reaches its label with a signed byte, forward ones included |
| DynAsmLink.AlignedAt | socialnetwork/wrk2/deps/luajit/dynasm/dasm_x86.h:331-331 | after padding the offset is a multiple of the alignment, with the least padding |
| DynAsmLink.SizeBounds | socialnetwork/wrk2/deps/luajit/dynasm/dasm_x86.h:291-345 | nothing is taken off but what was reckoned too much |
| DynAsm.State.Encode | socialnetwork/wrk2/deps/luajit/dynasm/dasm_x86.h:360-438 | pass 3 never reports a phase error: it writes exactly the computed size, each item its own bytes at its linked offset, and the caller finds the address of each global label |
| DynAsmEmit.AllGlobals | socialnetwork/wrk2/deps/luajit/dynasm/dasm_x86.h:413-417 | the entry of a global label is the address of its last definition |
| DynAsm.State.GetPcLabel | socialnetwork/wrk2/deps/luajit/dynasm/dasm_x86.h:442-451 | the final offset of a numbered label, or why there is none |
| DynAsm.State.BranchesReachTheirLabels | socialnetwork/wrk2/deps/luajit/dynasm/dasm_x86.h:367-438 | in the code written, every relative branch reaches the label it means, short or long, across sections |
| DynAsmEmit.BranchReaches | socialnetwork/wrk2/deps/luajit/dynasm/dasm_x86.h:395-410 | the displacement read back from the code, added to the end of the branch, is the offset of the label |
| BcDump.DumpThenLoad | socialnetwork/wrk2/deps/luajit/src/lj_bcwrite.c:272-376 | loading what was dumped gives the prototype tree back, with flags masked, loops unpatched, and debug info kept or stripped; exactly one prototype is left |
| BcDump.ProtoBack | socialnetwork/wrk2/deps/luajit/src/lj_bcread.c:329-420 | one framed prototype is read back over any stack, its children popped from it |
| BcProto.GcsBack | socialnetwork/wrk2/deps/luajit/src/lj_bcread.c:244-280 | constants find their children on the stack, each in its own slot |
| BcProto.KnumsBack | socialnetwork/wrk2/deps/luajit/src/lj_bcread.c:283-297 | number constants are read back, integers narrowed |
| BcProto.CodeIsPlain | socialnetwork/wrk2/deps/luajit/src/lj_bcwrite.c:242-268 | no instruction patched by a trace is written |
| BcConst.TabBack | socialnetwork/wrk2/deps/luajit/src/lj_bcwrite.c:112-148 | a template table is read back with the same array part and entries |
| BcConst.EntriesExact | socialnetwork/wrk2/deps/luajit/src/lj_bcread.c:220-241 | the entries read back are exactly those of the nodes in use |
| BcWords.UlebBack | socialnetwork/wrk2/deps/luajit/src/lj_bcwrite.c:67-75 | a 32 bit word is read back, and exactly its own bytes are consumed |
| BcWords.Uleb33Back | socialnetwork/wrk2/deps/luajit/src/lj_bcread.c:154-169 | a 33 bit number is read back, its low bit being the tag |
| BcWords.PatchIsRight | socialnetwork/wrk2/deps/luajit/src/lj_bcwrite.c:223-235 | patching the last byte in place gives the encoding of the 33 bit number |
| BcWords.LengthFits | socialnetwork/wrk2/deps/luajit/src/lj_bcwrite.c:325-332 | the length written backwards from the body ends at the start of its space exactly |
| BcWords.NarrowIff | socialnetwork/wrk2/deps/luajit/src/lj_bcwrite.c:217-222 | exactly the integers, and minus zero, are narrowed |
| BcWriter.Writer.Write | socialnetwork/wrk2/deps/luajit/src/lj_bcwrite.c:379-395 | the blocks sent are the dump; after a refusal they are a prefix of it |
| BcWriter.Writer.PutOwn | socialnetwork/wrk2/deps/luajit/src/lj_bcwrite.c:272-333 | one prototype with its length filled in backwards is the framed body |
| BcWriter.Writer.PutUleb33 | socialnetwork/wrk2/deps/luajit/src/lj_bcwrite.c:206-239 | the in-place patch writes the 33 bit form |
| BcReader.Reader.Read | socialnetwork/wrk2/deps/luajit/src/lj_bcread.c:455-475 | the reader, moving along the input and using its stack, gives what the grammar says, errors included |
| BcReader.Reader.GetProto | socialnetwork/wrk2/deps/luajit/src/lj_bcread.c:329-420 | one prototype is read as the grammar says |
| BcReader.Reader.GetUleb33 | socialnetwork/wrk2/deps/luajit/src/lj_bcread.c:154-169 | the shifted accumulation is the upper part of the 33 bit number |
| AsmHead.Assembler.HeadSide | socialnetwork/wrk2/deps/luajit/src/lj_asm.c:1364-1506 | the moves, run in the order opposite to emission, bring every parent value to its target, or the shuffle stops where a class of registers has none to break a cycle with |
| AsmHead.Assembler.Shuffle | socialnetwork/wrk2/deps/luajit/src/lj_asm.c:1472-1506 | the loop ends, with no register live or with that error, and keeps the invariant of the copy |
| AsmHead.Assembler.BreakCycles | socialnetwork/wrk2/deps/luajit/src/lj_asm.c:1491-1503 | renaming frees a live register |
| AsmHead.Assembler.RaRename | socialnetwork/wrk2/deps/luajit/src/lj_asm.c:615-637 | the register file and the inverse move after a rename |
| AsmHead.ParallelCopy | socialnetwork/wrk2/deps/luajit/src/lj_asm.c:1472-1506 | running the moves copies all values at once, whatever the registers hold, and leaves the stack slots alone |
| AsmMoves.OnlyCycles | socialnetwork/wrk2/deps/luajit/src/lj_asm.c:1491-1503 | when nothing live is free, the live registers hold exactly values that wait for one another |
| HdrIndex.IndexInjective | socialnetwork/wrk2/src/hdr_histogram.c:52-65 | different pairs of bucket and sub-bucket have different slots |
| HdrIndex.IndexOnto | socialnetwork/wrk2/src/hdr_histogram.c:52-65 | every slot belongs to a pair |
| HdrIndex.IndexInRange | socialnetwork/wrk2/src/hdr_histogram.c:52-65 | every pair has a slot |
| HdrIndex.SlotMonotone | socialnetwork/wrk2/src/hdr_histogram.c:67-73 | a greater value is never in an earlier slot |
| HdrIndex.SlotIffLowest | socialnetwork/wrk2/src/hdr_histogram.c:96-111 | two values share a slot exactly if they share the lowest equivalent value |
| HdrIndex.SlotIsInterval | socialnetwork/wrk2/src/hdr_histogram.c:96-111 | a slot holds the values from its lowest to its highest |
| HdrIndex.RecordableIff | socialnetwork/wrk2/src/hdr_histogram.c:230-243 | a value has a slot exactly if it lies below the end of the last bucket |
| HdrIndex.Precise | socialnetwork/wrk2/src/hdr_histogram.c:88-94 | a slot is no wider than the unit or than the value over ten to the significant figures |
| HdrInit.InitReturnsIff | socialnetwork/wrk2/src/hdr_histogram.c:146-155 | with the mask in 32 bits and the trackable value in 64, the doubling reaches any positive goal exactly if the mask fits and the goal is at most the mask doubled as often as 64 bits allow |
| HdrInit.InitCanHang | socialnetwork/wrk2/src/hdr_histogram.c:146-155 | lowest value 16384 with five figures: the doubling never gets above zero |
| HdrInit.InitCanHangForHighest | socialnetwork/wrk2/src/hdr_histogram.c:146-155 | the greatest 64 bit value as highest, with one figure: the doubling never reaches it, though the mask fits |
| HdrInit.HalfIsEnough | socialnetwork/wrk2/src/hdr_histogram.c:138-145 | half a bucket resolves the significant figures |
| Hdr.Histogram.Init | socialnetwork/wrk2/src/hdr_histogram.c:127-184 | whenever the search for buckets ends: an empty histogram with the fields that the arguments give and no bucket too many, valid if its slot widths fit an int; or the error |
| Hdr.Histogram.RecordValues | socialnetwork/wrk2/src/hdr_histogram.c:230-243 | the value is counted in its slot, if it has one |
| Hdr.Histogram.RecordCorrected | socialnetwork/wrk2/src/hdr_histogram.c:245-267 | a corrected value adds the missing ones, and never fails half way |
| Hdr.Histogram.ValueAtCount | socialnetwork/wrk2/src/hdr_histogram.c:335-358 | the highest value equivalent to the k-th smallest recorded one, which there is exactly if as many were recorded |
| Hdr.Histogram.Max | socialnetwork/wrk2/src/hdr_histogram.c:299-314 | the lowest value equivalent to the largest recorded one |
| Hdr.Histogram.Min | socialnetwork/wrk2/src/hdr_histogram.c:316-333 | the lowest value equivalent to the smallest recorded one |
| Hdr.Histogram.Add | socialnetwork/wrk2/src/hdr_histogram.c:269-287 | each slot gains exactly what the other histogram has for it, the rest is counted as dropped; with equal configurations it is recording both inputs in one |
| HdrSelfAdd.SelfAddEndsIff | socialnetwork/wrk2/src/hdr_histogram.c:269-287 | adding a histogram to itself ends exactly if it is empty |
| HdrSelfAdd.SelfAddCanHang | socialnetwork/wrk2/src/hdr_histogram.c:269-287 | one recorded value: after any number of turns counts are still missing |
| HdrCounts.KthSlot | socialnetwork/wrk2/src/hdr_histogram.c:335-358 | the slot in which the running count reaches k is that of the k-th smallest value |
| HdrCounts.PrefixSum | socialnetwork/wrk2/src/hdr_histogram.c:444-460 | a running count is the number of values recorded in the slots before |
| Hdr.Iter.MoveNext | socialnetwork/wrk2/src/hdr_histogram.c:444-460 | the iterator goes to the next slot and never runs past the last bucket while counts are missing |
| Hdr.Iter.Next | socialnetwork/wrk2/src/hdr_histogram.c:484-494 | slots are visited in order, each once, as long as counts are missing |
| Hdr.Iter.NextRecorded | socialnetwork/wrk2/src/hdr_histogram.c:663-675 | only empty slots are skipped |
| LuaSort.Sort | socialnetwork/wrk2/deps/luajit/src/lib_table.c:258-267 | for any strict weak order the slots end sorted and the order is never called invalid; for any function at all they are a permutation and the recursion is no deeper than the logarithm of their number |
| LuaSort.AuxSort | socialnetwork/wrk2/deps/luajit/src/lib_table.c:195-256 | the same for a part of the slots |
| LuaSort.Divide | socialnetwork/wrk2/deps/luajit/src/lib_table.c:219-245 | the slots are divided by the pivot, and no scan leaves them if the order is strict and weak |
| LuaSort.Three | socialnetwork/wrk2/deps/luajit/src/lib_table.c:199-218 | first, middle and last are put in order |
| LuaMatch.MatchState.Match | socialnetwork/wrk2/deps/luajit/src/lib_string.c:368-451 | the matcher, with its level, depth and array of captures, gives what its specification gives; after a miss all captures, their number and the depth are as before |
| LuaMatch.MatchState.MaxExpand | socialnetwork/wrk2/deps/luajit/src/lib_string.c:302-315 | tries the repetitions from the most down to none |
| LuaMatch.MatchState.MinExpand | socialnetwork/wrk2/deps/luajit/src/lib_string.c:317-329 | tries the repetitions from none up |
| LuaMatch.MatchState.StartCapture | socialnetwork/wrk2/deps/luajit/src/lib_string.c:331-343 | a capture is begun and, if the rest does not match, taken back |
| LuaMatch.MatchState.EndCapture | socialnetwork/wrk2/deps/luajit/src/lib_string.c:345-354 | the last open capture is closed and, if the rest does not match, open again |
| LuaMatch.MatchState.MatchCapture | socialnetwork/wrk2/deps/luajit/src/lib_string.c:356-366 | the bytes of a closed capture have to come again; a position is never found again |
| LuaMatch.MatchState.MatchBalance | socialnetwork/wrk2/deps/luajit/src/lib_string.c:281-300 | the place behind the byte that closes as many as were opened |
| LuaPattern.MatchDecides | socialnetwork/wrk2/deps/luajit/src/lib_string.c:368-451 | short of an error, the matcher finds a match exactly if the pattern allows one, and what it finds is allowed, end and captures alike |
| LuaPattern.Prefers | socialnetwork/wrk2/deps/luajit/src/lib_string.c:302-329 | among the allowed repetitions, `*` and `+` take the most with which the rest matches, `-` the fewest, `?` one rather than none |
| LuaPattern.LongestDecides | socialnetwork/wrk2/deps/luajit/src/lib_string.c:302-315 | the greatest number of repetitions with which the rest matches, or none at all |
| LuaPattern.ShortestDecides | socialnetwork/wrk2/deps/luajit/src/lib_string.c:317-329 | the least number of repetitions with which the rest matches, or none at all |
| LuaDefects.MatchExplained | socialnetwork/wrk2/deps/luajit/src/lib_string.c:192-224 | an error is the first defect of the pattern, which can be read off it without a subject, or comes from a nesting that its length bounds; a hit shows that the pattern has no defect but, perhaps, captures left open |
| LuaDefects.SoundPatternsDecide | socialnetwork/wrk2/deps/luajit/src/lib_string.c:368-451 | a pattern without defects, and shorter than the nesting limit, raises no error on any subject |
| LuaChars.ClassEnd | socialnetwork/wrk2/deps/luajit/src/lib_string.c:205-224 | where an item ends, and what is wrong if it does not |
| LuaChars.MatchBracketClass | socialnetwork/wrk2/deps/luajit/src/lib_string.c:246-267 | membership in a set with ranges, classes and complement |
| LuaFind.StrFindAux | socialnetwork/wrk2/deps/luajit/src/lib_string.c:511-559 | the leftmost match from the start given, anchored or not, with its captures; a plain search gives the leftmost occurrence; every error is a defect of the pattern or due to its length |
| LuaFind.LMemFind | socialnetwork/wrk2/deps/luajit/src/lib_string.c:453-475 | the first occurrence of the word, or that there is none |
| LuaFind.PushCaptures | socialnetwork/wrk2/deps/luajit/src/lib_string.c:477-502 | all captures as strings or positions, refused exactly if one is unfinished; the whole match if there are none |
| LuaFind.ShortcutIsExact | socialnetwork/wrk2/deps/luajit/src/lib_string.c:524-532 | the plain search taken for a pattern without special characters means the same exactly if the pattern has no zero byte and no closing parenthesis |
| ComposeJoin.JoinIsComplete | socialnetwork/pkg/services/composepost.go:78-113 | the caller that reads the full count finds all seven fields as they were uploaded, and is the only one |
| ComposeJoin.OneComposer | socialnetwork/pkg/services/composepost.go:78-113 | when all six have counted themselves, exactly one has read the full count |
| ComposeRun.StepKeeps | socialnetwork/pkg/services/composepost.go:186-360 | every step of a caller, of the store, of a queue and of a worker keeps the invariant |
| ComposeRun.RunKeeps | socialnetwork/pkg/services/composepost.go:78-360 | and so does every run, whatever its interleaving |
| ComposeRun.JoinInRuns | socialnetwork/pkg/services/composepost.go:78-113 | in every run at most one caller of a request composes, with the fields complete; and one does once all six have counted |
| ComposeRun.LoadKeeps | socialnetwork/pkg/services/composepost.go:200-253 | no load of the composer finds its field missing, and each gives what was uploaded |
| ComposeRun.StoredOnce | socialnetwork/pkg/services/composepost.go:256-286 | a request stores at most one post, made of its own uploads |
| ComposeRun.PublishedIsStored | socialnetwork/pkg/services/composepost.go:284-296 | the post of a published message is in the store exactly if its insertion did not fail unnoticed |
| ComposeRun.SwallowedIsPublished | socialnetwork/pkg/services/poststorage.go:69-94 | after an insertion that fails with a result, the message is published all the same |
| ComposeRun.PublishedOnce | socialnetwork/pkg/services/composepost.go:345-352 | no request has two messages in the queue of a region |
| ComposeRun.CountersInRuns | socialnetwork/pkg/services/writehometimeline.go:161-178 | inconsistencies are at most the messages received, those at most the ones published; each one received is counted once |
| ComposeRun.TimelinesInRuns | socialnetwork/pkg/services/writehometimeline.go:82-149 | a post in a timeline is in the store, and was published to that region with that time |
| ComposeRun.AllReached | socialnetwork/pkg/services/writehometimeline.go:123-149 | in every run, a worker has put the post of its message into all timelines but those still before it; so when it comes to its end without a failed write, all followers it was told of and all mentioned users have it |
| ComposeRun.NeverStuck | socialnetwork/pkg/services/composepost.go:186-298 | until its composer has finished or given up, some caller of a request can go on |
| HdrInit.FloorLog2Is | socialnetwork/wrk2/src/hdr_histogram.c:142-142 | the unit magnitude is the exponent of the greatest power of two up to the lowest value |
| HttpWitness.DigitsTaken | socialnetwork/wrk2/src/http_parser.c:1920-1971 | in a chunk size exactly the hexadecimal digits and the bytes from 128 on are taken, these as zero, as long as the number stays in range |
| HttpWitness.SizeRun | socialnetwork/wrk2/src/http_parser.c:1920-1971 | a size line is read as a number exactly if all its bytes are such, and fails otherwise |
| HttpWitness.OnlyHexDigits | socialnetwork/wrk2/src/http_parser.c:1920-1971 | below 128 these are hexadecimal digits |
| HttpWitness.HighByteEndsBody | socialnetwork/wrk2/src/http_parser.c:1920-2003 | a size line of the byte 128 alone is taken for that of the last chunk |
| LuaFind.ParenthesisDiffers | socialnetwork/wrk2/deps/luajit/src/lib_string.c:524-532 | the pattern of a closing parenthesis: found by the plain search, rejected by the matcher |
| LuaFind.ZeroDiffers | socialnetwork/wrk2/deps/luajit/src/lib_string.c:524-532 | a pattern with a zero byte: not found by the plain search, matched by the matcher |
| ComposeWitness.StoreIsReached | socialnetwork/pkg/services/composepost.go:78-113 | from any state of any run, a request whose composer has not called the store can come to call it |
| ComposeWitness.SwallowedHappens | socialnetwork/pkg/services/poststorage.go:69-94 | a run of one request comes to a store whose insertion can fail so |
| ComposeWitness.LostIff | socialnetwork/pkg/services/poststorage.go:69-94 | posts are lost exactly in runs in which an insertion failed with a result |
| ComposeWitness.AllStoredWithoutLoss | socialnetwork/pkg/services/composepost.go:284-296 | if that never happens, every message is about a post in the store |

## Findings

Where the code does not keep what it promises, the project states when it does, and gives an input for which it does not.

- A response to a HEAD request is parsed as if it had a body. The callback's reply is stored in bit six of a flags field of
  six bits (`socialnetwork/wrk2/src/http_parser.h:142` and `:207`), which drops it. `HttpInvariant.EndsWithHeadersIff` says exactly when a message
  ends with its headers, `HttpWitness.SkippedBodyIsRead` reads a response with a length of five, and goes on to wait for them.
- Cutting the input into buffers can change what is reported: after an error the piece of a token read so far is not
  reported, while the end of a buffer reports it. `HttpCut.CutIndependence` says exactly when, `HttpBody.CutCanMatter` is such an input.
- `hdr_init` never returns when the mask of a bucket does not fit 32 bits, as for a lowest value of 16384 with five
  significant figures, nor when the highest value is beyond the last doubling of the mask that fits 64 bits, as for the
  greatest 64 bit value with one figure. `HdrInit.InitReturnsIff` gives the exact condition, `HdrInit.InitCanHang` and
  `HdrInit.InitCanHangForHighest` the inputs.
- `hdr_add` of a histogram to itself never ends unless it is empty, since every count that the iterator passes is added
  to the total as well. `HdrSelfAdd.SelfAddEndsIff` proves this for unbounded counters, `HdrSelfAdd.SelfAddCanHang` has
  one recorded value.
- Bytes from 128 on count as the digit zero in a chunk size, since the table of hexadecimal digits has no entries for
  them. `HttpWitness.DigitsTaken` and `HttpWitness.SizeRun` say exactly which size lines are read as numbers, on bytes
  below 128 only those of hexadecimal digits; `HttpWitness.HighByteEndsBody` reads the byte 128 as the last chunk.
- `string.find` replaces the matcher by a plain search for patterns without special characters. A closing parenthesis is not
  among them, though the matcher rejects it, and the search for them stops at a zero byte, as the matcher does, while the
  plain search does not. `LuaFind.ShortcutIsExact` says that the two agree exactly for patterns without these bytes.
- The store of posts logs a failed insertion, and then reads its result all the same
  (`socialnetwork/pkg/services/poststorage.go:78-90`). Without a result the call breaks off there, and nothing is
  published; with one it reports success, and a message about a post that is nowhere is published. Which errors come
  with a result is up to the database driver, which is not part of this model. `ComposeRun.PublishedIsStored` says that
  the post of a message is in the store exactly if its insertion did not fail with a result, `ComposeWitness.LostIff`
  that posts are lost in no other runs, `ComposeWitness.SwallowedHappens` and `ComposeRun.SwallowedIsPublished` lead
  there from the first step on.

## Left out

- Allocator: memory from the system is an address that the caller passes in, null for a refusal; addresses lie in the lower two gigabytes. Direct chunks, trimming and releasing segments, `mremap`, and the destruction of a state are not modelled. Bitmaps are sets of indices.
- AllocTrie.TreeIndex: the truncation of the size to 32 bits, for sizes from 2^40 on, is not modelled; no chunk of the address range is that large.
- LjAlloc.MallocState.Realloc: the bytes that the program stores are kept apart from the words of the allocator; that these lie outside of live blocks is AllocTheorems.BlocksAreSafe.
- HTTP parser: pausing, failing callbacks, `http_parser_parse_url` and the names of errors. What headers_complete returns is a parameter, the same for all messages of one call.
- HttpParser.Parser.Execute: buffers are at most 0x70000000 bytes long, so that the 32 bit count of header bytes does not wrap within one call.
- HttpCut.CutIndependence: a first buffer after which the connection leaves HTTP is excluded, since no further call is made then; the count of header bytes is not compared, as cutting changes it.
- DynASM: `DISP`, `VREG`, `MARK`, `SETLABEL` and `EXTERN`, growing buffers, offsets beyond 32 bits, and reading an action list byte by byte; a list is a sequence of actions. A second link or encode, and a put after an error, are not modelled.
- DynAsm.State.Link: asks that no local label is waited for, which checkstep guarantees.
- Bytecode dumps: big-endian dumps, pointers into debug info, growing and refilling buffers; input that ends early is an error of its own. Minus zero is read back as zero.
- AsmHead.Assembler.HeadSide: targets that have spill slots of their own (pass 2), the stores, the adjustment of the stack and the check of its size, and the register of the stack base are not modelled.
- Histogram: floating point; the logarithms of the initialisation are characterised by powers of two, and the percentile is the count it stands for. Negative values, counts beyond 64 bits, means, printing and the other iterators are not modelled.
- Hdr.Histogram.Init: asks for arguments for which the search for buckets ends. The other operations ask for slot widths that an int holds, since they compute them by shifting one.
- Hdr.Histogram.Add: asks for two histograms; of one and the same it would never end, unless it is empty.
- LuaSort.Sort: comparison functions are total functions on the elements; errors they raise, and changes they make to the table, are not modelled.
- Patterns: `gmatch` and `gsub`, locales, and the stack check for many captures.
- Composing a post: expiry of the hash, failing commands of Redis, retried uploads, the user timeline and the metrics; each caller uploads once. The two goroutine pools and their channels are steps, not threads; JSON is taken to give back what was put in, and copies of posts reach a region in any order.
- ComposeRun.PublishedIsStored: holds up to insertions that fail unnoticed, as the store logs their errors and reports success.
- The services other than these, their databases, caches, tracing and deployment.
