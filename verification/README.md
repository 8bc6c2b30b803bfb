# pcapdb indexer, capture pipeline and search

This project models the core of pcapdb: how captured packets become a flow index and six sub-indexes
on disk, how a search is answered from those files, and how the capture threads hand buckets of
packets to each other. It follows the C program (`indexer/`) and the search trees of the Python
server (`core/apps/capture_node_api/lib/search/node.py`).

The main line is one theorem, `Answers.CaptureSearchFetch`: packets are captured in a chain of
buckets, entered into seven splay trees, written to disk by a walk that reverses pointers, searched
with any tree of ANDs, ORs, NOTs and atoms, and fetched again. What comes out are all packets of
exactly the flows that the search asks for, each packet once, and in the order of time if they were
captured in that order. Where the program does not do this, the theorem names the condition: a flow
can be missing only if two atoms of the search ask for one range with opposite signs. Which flows
are found is said for every search, in terms of its clauses when it is multiplied out, and leaves
one answer only (`Answers.AnswerIsDetermined`).

Beside it stands the pipeline: capture, indexing and output threads with their three queues as a
state machine, with safety, completeness and progress of every run.

## How it is built

- Records, keys and bytes: `Network`, `Keys`, `Items`, `Bits`, `Sequences`, `Folding`.
- Write side: `IndexTree`, `Splay` (splay trees without parent pointers), `IndexBucket` (indexing a
  chain), `MergeSort`, `LeftFilled` (depths in an implicit tree), `SubIndexFile`, `Walk`,
  `FlowFile`, `WriteIndex`, `SubIndexLayout` and `FlowIndexLayout` (the bytes of the files),
  `Archive` (a whole slot).
- Search side: `SubIndex` (the tree search), `OrderedSets` (buffers and files), `SkipLinks`,
  `SkipStates`, `SkipLists`, `UnionRuns`, `Unions`, `OffsetUnions`, `FlowUnions`, `Leapfrog`,
  `SearchLib`, `SubIndexSearch`, `EndToEnd`, `FlowFetch`, `Slots` (several slots), `PacketMerge`.
- Queries: `QueryTrees`, `Query` (NOTs pushed down), `Collapse`, `Normalize`, `SubSearches` (what
  pruning leaves), `Prune`, `Describe`, `SearchClauses` (a search multiplied out), `Answers`.
- Threads: `Queues`, `Pipeline`, `PipelineProgress`, `BucketWaits` (sleeping and waking).
- Code that does not do what it is for, as it is written: `WalkAsWritten` (the walk in a tree, on
  records), `SubIndexAsWritten` (on files), `RangeAsWritten` (a whole range), `QueryAsWritten`,
  `ReadOnce`, and the members named under Findings.

Objects whose fields the program updates are classes here, and the methods that change them are
proved against functions on values or on ghost shapes of the linked structures. Lemmas about those
functions say what the results mean. Two conventions recur. A predicate whose body is `forall n ::
Folded(n) ==> P` says just what P says, but is carried from loop to loop without being opened (see
`Folding`). A parameter `written` tells whether a step is done as the program does it (`true`) or
repaired (`false`); a theorem for `written` names what it then needs.

## Findings

Places where the program differs from its purpose. The main line uses the repaired step unless the
entry says otherwise. Each entry names the theorems that say when the step as written does what it
is for, and an input where it does not, unless the condition itself shows one.

1. **Range searches** (`indexer/search/subindex.c:220-222, 390-391, 412-414`). The search records a
   node as the last match only when the keys are equal, though it is meant to find the first key
   that is not smaller. `WalkAsWritten.WrittenSearchRightIff` is about the search with this defect
   and the next two, on any sorted records, for any division of the levels into preview, walk and
   buffer: it is right, whatever lies in the buffer behind the records, exactly if (a) the start key
   is stored, or all keys are smaller, or the first larger one lies on a level walked one record at
   a time (there, `subindex.c:314-316`, larger ones are recorded), (b) the seek does not mislead and
   (c) nothing behind the records is looked at, both in terms of the number of records and the
   number of smaller keys. `SubIndexAsWritten.FileSearchRightIff` is the same for a file, with the
   levels that its preview leaves over and those too large for the buffer. `MissesRange`: of keys 1,
   3 and 5 a search from 2 on finds nothing.
2. **Virtual nodes** (`subindex.c:198-206, 375-385, 409`). In the preview, past the end of the
   records, the loop goes left without counting a preview level, and at a leaf shifts by minus one.
   `SubIndexAsWritten.SearchFallsThroughIff`: it leaves the tree exactly if the key is above every
   record and the number of records is 2^d - 2^e, for a tree of depth d with e within seven of d.
   `SearchAbovePortsFallsThrough` is such a file of ports. In the buffer the loop goes left from a
   virtual node and then compares, be the next node virtual or not, and the leaf is compared unseen.
   `WalkAsWritten.BufferedSearchRightIff`, for files that are read at once: the way must have no
   virtual node on the two lowest levels and no two in a row (`StaysInside`). `MissesLastOfNine`: 9
   is not found among 1 to 9 if there are zeros in the buffer; `LosesLastOfFive`: the way to 5 among
   1 to 5 ends below the leaves; `FindsInEmptyFile`.
3. **The seek of the slow walk** (`subindex.c:285`). It seeks `index` records past the start though
   positions count from 1. `SubIndexLayout.SeekAsWritten`: it compares with the record after the one
   it stands on, and at the last record there is nothing to read. `WrittenSearchRightIff`: this
   misleads exactly if the last smaller record, with larger ones behind it, or the last record of
   all is on the way at such a level. `SeekFindsSmaller`: 3 is found for 5; `SeekFails`;
   `SubIndexAsWritten.SeekMisleadsInFile` is a file of 2^19 source addresses.
4. **End of file in a range** (`subindex.c:497-498`). After the last record the next read fails and
   the whole search with it; the source marks it as open. `SubIndexSearch.OutputMatches`,
   `SearchSubindex` and `EndToEnd.RunSearch` have both forms: as written they succeed exactly if no
   record is in the range or the last record is behind it (`SubIndexSearch.ScanEndsIff`), which in
   terms of flows is that none has a key in the range or one has a key above it
   (`EndToEnd.EndsAmongIff`). `SubIndexSearch.ScanMeetsEnd`: keys 1, 3 and 5 and the range from 3 to
   5. With the walk of entries 1 to 3 before it, `RangeAsWritten.RangeSearchRightIff` says exactly
   when a range search of a file gives the flows of the range.
5. **Merging flow records** (`indexer/keys.c:192-195`). The counts are shifted as 32-bit values and
   the size of the first record by the exponent of its packets. `Keys.WrittenPacketsRightIffSmall`:
   the packet count is right exactly if the sum fits in 32 bits. `WrittenSizeRightIffSmall` is the
   same for sizes of records with zero exponents, and `WrittenExponentsStayZero`: the writer and the
   merge as written make no others. With the packets repaired alone the wrong exponent would show:
   `WrittenSizeUsesWrongExponent` merges three records of the writer.
6. **Result names of ANDs** (`node.py:352-364`, `indexer/search/search.c:761`,
   `indexer/search/search_lib.c:73-77`). The name does not tell inverted atoms from others, and an
   AND whose result exists is not computed. `EndToEnd.FoundIsWanted`: nothing wrong is found, and
   nothing is missing if no two ANDs differ in their signs alone. `EndToEnd.LostIff`: a flow is lost
   exactly if it meets some AND, but none that says the same as the first AND of its name.
   `EndToEnd.PortsSearchLoses` shows this for `(src port 80 and dst port 53) or (src port 80 and not
   dst port 53)`.
7. **Copies of turned operators** (`node.py:135-144`). De Morgan's law changes the `type` of a node
   (`node.py:196-205`); `copy` makes a node of the original class.
   `QueryAsWritten.WrittenCopyIsAlike`: the copy is like the original exactly if no operator in it
   was turned over. `ReadOnce.WrittenCopyMeansSameIff` and `ReadOnce.WrittenSpreadRightIff`: for
   trees that ask each thing once, it also means the same exactly then.
   `QueryAsWritten.WrittenSpreadWrong` shows a flow that `(c or d) and not (a and b)` asks for and
   loses. `Normalize.NormalizeTree` proves normalisation as written right for searches without AND
   or OR below an odd number of NOTs.
8. **Flows that outlast a search** (`search_lib.c:284-291`). The comment says a flow is dropped if
   it starts after the end; the code compares with its last packet. `FlowFetch.KeptIffEndsInTime`: a
   flow is kept exactly if it overlaps and does not go on after the end. `StraddlerIsDropped` is an
   input. The model follows the code.
9. **Four-byte offsets** (`search_lib.c:339-341`). The flow index has eight-byte offsets for large
   capture files, and only four are read. `FlowFetch.FourBytesRightIff`: the entry read is right
   exactly for flows below 4 GiB.
10. **Shutdown can hang** (`indexer/bucketize.c:52`, `indexer/pcapdb.c:488-583`). A capture thread
    that has used up its bucket waits in a pop without a timeout. `PipelineProgress.Progress`: until
    the shutdown is through, some step takes it further or it hangs in exactly this way.
    `HungForGood` and `NeverFinished`: it then hangs for ever. `HungHoldsAll`: then every bucket is
    held by a waiting capture thread. `SomeRunHangs` is a run that does.
11. **A pop that comes back empty-handed** (`bucketize.c:52-57`, `indexer/queue.c:63-106`). A
    blocking pop waits once and then may return nothing, and the capture thread uses the null
    bucket. In `BucketWaits`, the pipeline with sleeping and waking, a run ends there.
    `NothingOnlyIfRobbed`: a thread is given nothing only if another capture thread took a bucket
    after it was woken, and never because the queue was closed; `NeverAlone`: with one capture
    thread it does not happen; `SomeRunGivesNothing` is a run with two in which it does.
    `SomeoneIsWoken`: no wake-up is lost. Wake-ups without a signal, which POSIX allows, would make
    it possible for any sleeping thread. In `Pipeline` such a pop is another try.
12. **Last packet of a flow** (`indexer/search/packets.c:227-229`). The time of the next packet is
    read after the last one too. `FlowFetch.StampInsideIff`: the read is within the buffer exactly
    if the packet is not the last one; at the last one the flow is at its end and the value is not
    used.
13. **ANDs without a regular input** (`search_lib.c:109-112`). The check compares a pointer that is
    never null. `SearchLib.CheckRightIff`: it does what it is for exactly if some input is regular,
    so the error it should give is never given. `SearchLib.AndResults` models the check as it is
    meant, and succeeds exactly if there is a regular input. No search from the server gets there:
    each AND it describes has a regular input (`Describe.DescribeSearch`).

## Model

| member | source | states |
|---|---|---|
| Network.IpCmpIsRankOrder | indexer/network.c:368-391 | comparing addresses is comparing numbers, so it is a total preorder with every IPv4 address before every IPv6 one |
| Network.BytesCmpIsNumeric | indexer/network.c:375-386 | comparing bytes from the front is comparing the big-endian numbers |
| Network.IpCmpOnBytes | indexer/network.c:368-391 | an address is before another exactly if its version is smaller, or the first byte in which they differ, and neither is exactly if version and bytes are the same |
| Network.BigEndianDigit | indexer/network.c:375-386 | the number of an address has its first byte as the most significant |
| Network.GenCmpIsRankOrder | indexer/network.c:393-456 | for each kind of tree gen_cmp is the order of one rank per packet, hence reflexive, antisymmetric up to equal keys and transitive |
| Network.SameFlowIff | indexer/network.c:393-456 | two packets are of one flow exactly if their ports, addresses and protocols are the same |
| Network.KeyValOrdersLikeRank | indexer/output.c:620-668 | within a sub-index tree the order of the tree is the order of the keys stored |
| Keys.FlowKeyCmpIsRankOrder | indexer/keys.c:159-174 | flow records are ordered as the flow tree orders packets |
| Keys.SameKeyIff | indexer/keys.c:159-174 | and are of one flow exactly if the ports, addresses and protocols are the same |
| Keys.TsRankOrders | indexer/keys.c:176-190 | times are ordered by seconds and then microseconds |
| Keys.ScaleIsClose | indexer/keys.c:196-222 | a scaled count is within one unit of its exponent below the total, uses the exponent only when needed, and is zero from 2^47 on |
| Keys.FlowKeyMerge | indexer/keys.c:176-223 | the loops that halve in place compute the merge whose meaning the next row gives |
| Keys.MergeFlowKeysMeaning | indexer/keys.c:176-223 | a merged record spans both, keeps the five-tuple, and counts the sums to within a unit of the exponent |
| Keys.WrittenPacketsRightIffSmall | indexer/keys.c:192-193 | the 32-bit shift gives the right packet count exactly if the sum fits in 32 bits |
| Keys.WrittenSizeRightIffSmall | indexer/keys.c:194-195 | the same for sizes, for records with zero exponents |
| Keys.WrittenExponentsStayZero | indexer/keys.c:191-222 | the exponents of a merge as written are zero, so the two rows above are about all records there can be |
| Keys.WrittenSizeUsesWrongExponent | indexer/keys.c:194-195 | if the packets were shifted rightly, three records of the writer whose size comes out wrong though it fits |
| Items.FlowRoundTrip | indexer/search/ordered_set.c:302-340 | a flow record of 72 bytes reads back as it was written |
| Items.LittleEndianDigit | indexer/search/ordered_set.c:302-340 | byte i of a number on disk counts 256 to the i |
| Splay.SplayedKeepsLine | indexer/index.c:300-433 | restructuring along the whole search path leaves the order of all nodes as it was |
| Splay.Descend | indexer/index.c:208-300 | the walk down reverses pointers so that subtree and path together are the old tree, at the place of the key |
| Splay.SplayToRoot | indexer/index.c:300-433 | rotations that restore the reversed pointers end in a search tree of the same nodes in the same order, with the node at the root |
| Splay.SplayTrInsert | indexer/index.c:208-433 | insertion leaves a search tree with the key at the root; exactly one node is added if the key is new and none otherwise, the order of the others stays, and only the lists of this key grow |
| IndexTree.OrderedIsSorted | indexer/index.c:208-433 | an ordered tree lists each node once, in strictly rising order |
| MergeSort.MergeFlowLists | indexer/index.c:552-582 | two linked lists are relinked in place into their merge |
| MergeSort.MergeIsSorted | indexer/index.c:552-582 | the merge of sorted lists is sorted |
| MergeSort.MergeKeepsElements | indexer/index.c:552-582 | the merge has each element of both, as often as they had it |
| MergeSort.CarryCounts | indexer/index.c:596-632 | the slots of the sort count like a binary number, so 64 of them suffice below 2^64 elements |
| MergeSort.MergeSortOffsets | indexer/index.c:584-651 | the list is relinked into rising order of offset, a permutation of what it was |
| LeftFilled.TreeDepth | indexer/search/subindex.c:117-124 | the doubling loop finds the least depth that holds all records |
| LeftFilled.DepthOfIsLeast | indexer/search/subindex.c:117-124 | no smaller depth would do |
| LeftFilled.NodeDepth | indexer/output.c:579-606 | the depth of node n is the tree's depth less the trailing zeros of n, and the error at the end is never reached |
| LeftFilled.TopLevels | indexer/output.c:579-606 | the nodes of the top p levels are the multiples of 2^(d-p) |
| LeftFilled.PreviewDepth | indexer/output.c:706-742 | the writer's loop finds the same number of levels as the reader's, for files that have a preview |
| LeftFilled.ReaderPreviewDepth | indexer/search/subindex.c:177-186 | the reader's loop finds that number |
| LeftFilled.PreviewIsShallow | indexer/output.c:706-742 | a tree with a preview is deeper than the preview |
| FlowFile.FlowWriter.WriteFlow | indexer/output.c:164-248 | one flow is appended to the capture file, and its node notes the place of its entry |
| FlowFile.EntryFields | indexer/output.c:170-233 | its entry has the times of its first and its last packet, the addresses, ports and protocol of the first, the number of its packets, and, while it fits in 32 bits, sixteen bytes for each and what was captured |
| FlowFile.BytesAre | indexer/output.c:188-220 | the bytes of a flow are sixteen for each packet and what was captured of it |
| FlowFile.EntriesTile | indexer/output.c:164-248 | the entries of the flow index tile the capture file: each flow begins where the one before ends and nothing is left over |
| FlowFile.EntryValues | indexer/output.c:164-248 | an entry has the place and size of its flow while these fit in their fields |
| SubIndexFile.SortedList | indexer/output.c:613-640 | the flows of a node in rising order of their places in the flow index |
| SubIndexFile.SubWriter.WriteNode | indexer/output.c:613-702 | the records of one node: its key with each of its places, in rising order |
| SubIndexFile.FlatInOrder | indexer/output.c:613-702 | records of nodes in order of key, each sorted by place, are in order altogether |
| SubIndexFile.FlatHolds | indexer/output.c:613-702 | a record is there exactly if its place is among those of its key |
| Walk.RoundIsRight | indexer/output.c:458-531 | each round of the walk puts out the next node in order if any, frees only nodes done with, and comes nearer to the end |
| Walk.MoveOn | indexer/output.c:480-531 | the pointers set in a round stand at the next place of the walk, with the way back in the left links |
| WriteIndex.WalkTree | indexer/output.c:450-531 | the walk puts out every node once in order; a sub-index frees every node once and never before it is done with, the flow index none |
| WriteIndex.WriteFlowIndex | indexer/output.c:350-576 | the capture file has the packets of every node of the flow tree, in order of the flows, and each node notes its place |
| WriteIndex.WriteSubIndex | indexer/output.c:350-576 | the file is well formed: sorted records, one for each flow of each node, counted by the header, with a preview of every 2^k-th record cut to the first disk block |
| SubIndexLayout.WriteFile | indexer/output.c:414-565 | the blanks, the records and then the header and preview written over the blanks are exactly the bytes of the file |
| SubIndexLayout.OpenIndex | indexer/search/subindex.c:67-107 | what the checks on opening a file come to, in their order, for any bytes at all |
| SubIndexLayout.HeaderRoundTrip | indexer/output.c:541-556 | the fields of a header read back as they were written |
| SubIndexLayout.HeaderOnDisk | indexer/output.c:541-556 | which bytes of a header hold which field |
| SubIndexLayout.KeysOnDisk | indexer/output.c:620-668 | the key of an address is on disk as the address, byte for byte, and a port has its low byte first |
| SubIndexLayout.RecordsStartAgrees | indexer/search/subindex.c:275-285 | the writer decides by the number of records and the reader by the header, and both find the records at the same byte |
| SubIndexLayout.OpensForItsType | indexer/search/subindex.c:78-107 | a file as written is opened by a search for its own type of key and by no other |
| SubIndexLayout.CutShortIsRefused | indexer/search/subindex.c:78-87 | every proper prefix of a file is refused |
| SubIndexLayout.RecordRoundTrip | indexer/output.c:668-690 | a record of either offset width reads back as it was written |
| SubIndexLayout.SeekFindsRecord | indexer/search/subindex.c:333-347 | the seek to index - 1 records past the start reads record number index |
| SubIndexLayout.SeekAsWritten | indexer/search/subindex.c:282-308 | the seek as written reads the key after the one meant, and nothing at the last record |
| SubIndexLayout.PreviewKeyAt | indexer/search/subindex.c:198-219 | the place where the preview search looks holds the key of that preview node |
| FlowIndexLayout.AddressesOnDisk | indexer/keys.h:35-58 | an entry has its addresses at bytes 16 and 40 as they are, each with its version behind it |
| FlowIndexLayout.NumbersOnDisk | indexer/keys.h:35-58 | and its times, counts and ports as numbers at the bytes of the structure |
| FlowIndexLayout.EntryIsAt | indexer/output.c:164-248 | the bytes of an entry are at its place in the flow index, for either width of offsets |
| FlowIndexLayout.ReadsTheEntry | indexer/search/search_lib.c:339-361 | reading at a place gives back the entry written there, but for the upper half of an eight-byte offset when four bytes are read as written |
| SubIndexAsWritten.PreviewWhenSaid | indexer/search/subindex.c:136-141 | the header announces a preview exactly if the file has one |
| SubIndex.StepsStayOnTrack | indexer/search/subindex.c:117-151 | each step of the tree search keeps the first record sought within the subtree or as last match |
| SubIndex.SearchPreview | indexer/search/subindex.c:172-249 | the search in the preview keeps the position in the large tree on track, also where the preview is cut off |
| SubIndex.SearchIndex | indexer/search/subindex.c:259-417 | the walk and the buffered search end at the first record not below the key, and read as many records as expected |
| SubIndex.FindFirst | indexer/search/subindex.c:114-151 | the whole search finds what a scan of all records finds: the first with a key not below the one sought, or none |
| SubIndex.FirstAtLeastUnique | indexer/search/subindex.c:168-171 | that answer is determined by the records |
| WalkAsWritten.WrittenSearchRightIff | indexer/search/subindex.c:172-417 | when the walk as written, with all its defects, finds the first record of a range whatever is in the buffer behind the records: an exact condition on the number of records, the number of smaller keys and the next key |
| WalkAsWritten.HarmlessIff | indexer/search/subindex.c:172-417 | for a key that is not stored, when the match it ends with is none or a larger record |
| WalkAsWritten.BufferedSearchRightIff | indexer/search/subindex.c:352-417 | for files read at once: the key is stored or all keys are smaller, and no virtual node follows on another or is on the two lowest levels |
| SubIndexAsWritten.FileSearchRightIff | indexer/search/subindex.c:114-151 | the condition for a whole file, with the levels that its preview leaves and those too large to be read at once |
| RangeAsWritten.RangeSearchRightIff | indexer/search/subindex.c:41-166 | exactly when a range search as written of a file gives the flows of the range, for empty ranges too |
| WalkAsWritten.MissesRange | indexer/search/subindex.c:390-414 | a range with two of three keys in it comes back empty |
| WalkAsWritten.MissesLastOfNine | indexer/search/subindex.c:375-385 | nine records of which the last is not found |
| WalkAsWritten.LosesLastOfFive | indexer/search/subindex.c:375-385 | five records and a search that steps below the leaves |
| WalkAsWritten.FindsInEmptyFile | indexer/search/subindex.c:405-417 | a match in an empty file |
| WalkAsWritten.SeekFindsSmaller | indexer/search/subindex.c:282-316 | the seek makes a smaller key the match |
| WalkAsWritten.SeekFails | indexer/search/subindex.c:282-308 | the seek at the last record fails |
| SubIndexAsWritten.SeekMisleadsInFile | indexer/search/subindex.c:282-316 | a well-formed file of source addresses and a stored key that is not found |
| SubIndexAsWritten.SearchFallsThroughIff | indexer/search/subindex.c:198-215 | when the search in the preview leaves the tree, in terms of the key and the number of records |
| SubIndexAsWritten.SearchAbovePortsFallsThrough | indexer/search/subindex.c:198-215 | a file of ports and a search that does |
| OrderedSets.OrderedSet.Push | indexer/search/ordered_set.c:302-340 | an element is appended, whether it fits, the buffer is doubled or spilled to a file |
| OrderedSets.OrderedSet.FillBuffer | indexer/search/ordered_set.c:253-298 | a read of any length loses nothing, and partial records wait for the rest |
| OrderedSets.OrderedSet.Pop | indexer/search/ordered_set.c:407-412 | elements come out first in, first out, and at the end there are none |
| OrderedSets.OrderedSet.ReadMode | indexer/search/ordered_set.c:345-372 | turning from writing to reading keeps the contents |
| OrderedSets.RoundTrip | indexer/search/ordered_set.c:302-412 | pushing any sequence, turning round and popping to the end gives it back |
| SkipStates.InsertedSound | indexer/search/ordered_set.c:530-600 | after an insertion each level of links again skips exactly the lower nodes, in order |
| SkipStates.FirstRemovedSound | indexer/search/ordered_set.c:508-525 | the same after taking the first node |
| SkipLists.LevelsFitIff | indexer/search/ordered_set.c:478-503 | the array of links is never overrun exactly while there are fewer than 65536 sets |
| SkipLists.SkipList.Add | indexer/search/ordered_set.c:478-490 | a set is linked in behind all whose next element is no larger; an empty one is dropped |
| SkipLists.SkipList.Pop | indexer/search/ordered_set.c:508-525 | the set with the smallest next element is unlinked at all its levels |
| SkipLists.SkipList.Reinsert | indexer/search/ordered_set.c:530-612 | as Add, for a set that was taken a moment before, on as many levels as are still kept |
| UnionRuns.PoppedInOrder | indexer/search/ordered_set.c:620-673 | elements are taken from the sets in rising order |
| UnionRuns.RunConserves | indexer/search/ordered_set.c:620-673 | what has been taken and what is left are together what there was |
| UnionRuns.CoalesceIsStrict | indexer/search/ordered_set.c:636-668 | what is put out rises strictly |
| UnionRuns.CoalesceMerges | indexer/search/ordered_set.c:636-668 | for each key it has all elements of that key merged, or none |
| Unions.Union | indexer/search/ordered_set.c:620-673 | the union over linked sets follows such a run to its end and puts out what the run coalesces to |
| OffsetUnions.OffsetUnionIs | indexer/search/ordered_set.c:636-653 | for offsets: each offset of any set once, in rising order |
| OffsetUnions.UnionOffsets | indexer/search/ordered_set.c:620-673 | the executed union of sets of offsets has exactly the offsets of any of them |
| FlowUnions.FlowUnionIs | indexer/search/ordered_set.c:654-663 | for flows: one record for each flow, in order, the fold of flow_key_merge over all its records |
| FlowUnions.MergedSpans | indexer/keys.c:176-190 | the merged record has the earliest start and the latest end of those records |
| FlowUnions.MergedCounts | indexer/keys.c:191-210 | and their exact number of packets while that fits in 32 bits |
| FlowUnions.MergeFlowFiles | indexer/search/merge_flows.c:26-132 | merging result files: one record for each flow of any file, all its records merged |
| Slots.RecsAscend | indexer/search/search_lib.c:298-384 | the records fetched from a slot rise in the order the merge needs |
| Slots.FetchSlots | indexer/search/merge_flows.c:26-132 | a search over several slots: one record for each flow found within the limits in any of them, all its records merged |
| Leapfrog.AdvancedOnTrack | indexer/search/search_lib.c:130-206 | moving on to the next set passes over nothing that is in all sets |
| Leapfrog.FoundInAll | indexer/search/search_lib.c:130-206 | an item met in as many sets as there are is in the intersection |
| Leapfrog.RunOut | indexer/search/search_lib.c:130-206 | when a set has run out nothing more is in all sets |
| SearchLib.AndResults | indexer/search/search_lib.c:52-225 | it succeeds exactly if some input is regular, and gives exactly what is in all regular inputs and in none of the inverted ones, each once and in order |
| SearchLib.CheckRightIff | indexer/search/search_lib.c:109-115 | the check as written does what it is for exactly if some input is regular |
| SearchLib.OrResults | indexer/search/search_lib.c:227-267 | the result is exactly what is in any of the inputs, each once and in order |
| SubIndexSearch.OutputMatches | indexer/search/subindex.c:422-529 | the offsets of all records from a position on up to the end key, in order, also when more than 1024 keys are merged in between; as written it succeeds exactly if some record there is behind the end |
| SubIndexSearch.ScanEndsIff | indexer/search/subindex.c:497-498 | that is, from the first record of a range on, exactly if the range is empty or the last record is behind it |
| SubIndexSearch.ScanMeetsEnd | indexer/search/subindex.c:497-498 | three records and a range for which it fails |
| SubIndexSearch.RangeIsContiguous | indexer/search/subindex.c:422-475 | those records are all that have keys in the range |
| SubIndexSearch.SearchSubindex | indexer/search/subindex.c:41-166 | a range search gives exactly the offsets of records with keys in the range; it is refused exactly if the range is the wrong way round, or, with the end of file as written, if the last record is in it |
| IndexBucket.InsertPacket | indexer/index.c:105-128 | the flow tree groups the packets so far by five-tuple, in order of arrival, and a new node means a new flow |
| IndexBucket.PacketsOfPlaces | indexer/index.c:105-128 | the packets of a flow are those with its rank, in the order of arrival |
| IndexBucket.InsertFlow | indexer/index.c:128-180 | a sub-index tree groups the flows so far by key, in order of their first packets |
| IndexBucket.FlowsOfPlaces | indexer/index.c:128-180 | the flows under a key are those it applies to that have it, in the order of their first packets |
| IndexBucket.IndexSet.AddPacket | indexer/index.c:80-182 | one packet more: all seven trees, the list of flows and the counters are those of the packets so far and this one |
| IndexBucket.IndexChain | indexer/index.c:64-185 | after a chain of buckets they are those of all its packets |
| IndexBucket.ChainedOfTwo | indexer/index.c:64-185 | the packets of a chain are those of its buckets, one bucket after the other |
| IndexBucket.SourceIsEntered | indexer/index.c:139-151 | after any packets every flow with an IPv4 or IPv6 source is in the list of exactly one node of the tree of that version, the node of its address, and in no list of the other tree |
| IndexBucket.DestinationIsEntered | indexer/index.c:153-165 | the same for the destination |
| IndexBucket.PortsAreEntered | indexer/index.c:167-169 | and with each of its ports in exactly one node of the tree of these ports |
| IndexBucket.PacketHasFlow | indexer/index.c:105-128 | every packet is with the one flow that has its ports, addresses and protocol |
| IndexBucket.TallyOnFields | indexer/index.c:139-165 | a flow counts where its address is of that version |
| Archive.WriteTree | indexer/output.c:350-576 | the file of a sub-index has a record for exactly the flows to which its key applies, with their key and place |
| Archive.WriteFlows | indexer/output.c:350-576 | the capture file has exactly the packets indexed, grouped by flow, each flow in order of arrival |
| Archive.OutputBucket | indexer/output.c:67-160 | the seven files of a slot agree: a sub-index has an entry exactly for each flow and its key, at the place of the flow in the flow index |
| Archive.SourceIsFiled | indexer/output.c:612-690 | the file for sources of a version has a record of a flow at its place exactly if its source is of this version, with the number of its bytes as the key |
| Archive.DestinationIsFiled | indexer/output.c:612-690 | the same for destinations |
| Archive.PortsAreFiled | indexer/output.c:612-690 | and for ports, of which every flow has both |
| Archive.CaptureIsPermutation | indexer/output.c:164-248 | the capture file has each packet as often as it was indexed, and the packet counts of the entries add up to the number of packets |
| EndToEnd.Reconcile | indexer/search/search.c:470-493 | whether every reference is to a sub-search that exists |
| EndToEnd.PlaceTellsFlow | indexer/output.c:164-248 | two flows never have the same place |
| EndToEnd.EndsAmongIff | indexer/search/subindex.c:497-498 | the condition in terms of the flows of a slot |
| EndToEnd.RunSearch | indexer/search/search.c:637-782 | the result files of a slot lead to exactly the places that looking at each flow in turn finds; it fails exactly for a wrong reference, a range the wrong way round, or, as written, a range with the largest key in it |
| EndToEnd.IndexAndSearch | indexer/search/search.c:637-782 | indexing, writing and searching any chain gives what looking at each flow in turn finds |
| EndToEnd.FoundIsWanted | core/apps/capture_node_api/lib/search/node.py:352-364 | nothing unwanted is found, and everything wanted unless two ANDs differ in their signs alone |
| EndToEnd.SignsExclude | core/apps/capture_node_api/lib/search/node.py:352-364 | two such ANDs have no flow in common |
| EndToEnd.LostIff | core/apps/capture_node_api/lib/search/node.py:352-364 | exactly which flows are lost to a shared name, for any search |
| EndToEnd.LostIf | indexer/search/search.c:759-773 | a flow that meets only an AND passed over for its name is lost |
| EndToEnd.PortsSearchLoses | indexer/search/search.c:759-773 | a search and the flows it loses |
| FlowFetch.KeptIffEndsInTime | indexer/search/search_lib.c:269-296 | a flow is kept exactly if it overlaps the time of the search and does not go on after it |
| FlowFetch.StraddlerIsDropped | indexer/search/search_lib.c:284-291 | a flow that overlaps and is dropped |
| FlowFetch.WantsByFields | indexer/search/search_lib.c:269-296 | a flow is kept exactly if its last packet is within the limits by seconds and microseconds and its protocol is the one asked for, or any is |
| FlowFetch.PickedPlaces | indexer/search/search_lib.c:344-376 | the flows kept are those found that are within the limits, in their order |
| FlowFetch.FourBytesRightIff | indexer/search/search_lib.c:339-361 | the four-byte read gives the entry exactly for flows below 4 GiB |
| FlowFetch.FetchRecords | indexer/search/search_lib.c:298-384 | the records of exactly the flows found that are within the limits |
| FlowFetch.FetchPackets | indexer/search/packets.c:256-372 | it succeeds exactly if each record leads to a flow that begins at the recorded time, and then merges the packets of all |
| FlowFetch.StampInsideIff | indexer/search/packets.c:197-230 | the read of the next time stays in the buffer exactly if the packet is not the last of its flow |
| FlowFetch.FetchFound | indexer/search/search_lib.c:298-384 | from the places of a search to all packets of the flows within the limits, each once, in order of time if captured so |
| PacketMerge.RootIsEarliest | indexer/search/packets.c:125-148 | the root of the heap is the flow whose next packet is earliest by seconds and then microseconds |
| PacketMerge.InOrderByTime | indexer/search/packets.c:125-148 | the order by seconds and then microseconds is the order of one number made of both |
| PacketMerge.MergePairs | indexer/search/packets.c:151-178 | a row of siblings becomes one heap of the same nodes |
| PacketMerge.DelMin | indexer/search/packets.c:181-193 | the heap without its root has all other nodes and is a heap |
| PacketMerge.MergeFlows | indexer/search/packets.c:343-372 | every packet once, each flow in its own order, and in order of time, by seconds and then microseconds, if each flow is |
| PacketMerge.InterleavesPlaces | indexer/search/packets.c:343-372 | that is, each place in the output belongs to one flow, and the places of a flow have its packets in order |
| Query.CollapseNots | core/apps/capture_node_api/lib/search/node.py:180-218 | it fails exactly for a NOT without exactly one subtree or at the root; otherwise no NOT is left and the meaning is kept |
| Collapse.Copy | core/apps/capture_node_api/lib/search/node.py:135-144 | a copy on new nodes that is like the original |
| Collapse.AlikeMeans | core/apps/capture_node_api/lib/search/node.py:135-144 | trees that are alike mean the same |
| Collapse.Distributes | core/apps/capture_node_api/lib/search/node.py:242-271 | an AND distributed over an OR means the same and weighs less, so collapsing ends |
| Normalize.CollapseNode | core/apps/capture_node_api/lib/search/node.py:220-275 | it ends, for any tree, in an atom, an AND of atoms or an OR of these that means the same |
| Collapse.DistributesTerms | core/apps/capture_node_api/lib/search/node.py:242-271 | distribution over the first OR neither makes nor loses a clause, with its atoms and signs, and keeps them in order |
| Collapse.CrossedOfThree | core/apps/capture_node_api/lib/search/node.py:242-271 | multiplying out does not depend on how the parts of an AND are grouped, order of clauses included |
| Normalize.NormalizeTree | core/apps/capture_node_api/lib/search/node.py:146-178 | it fails exactly as collapse_nots does, and otherwise gives an OR of ANDs of atoms that means what the search meant and has exactly the clauses of the search multiplied out, in order but for lone atoms, which come last |
| QueryAsWritten.WrittenCopyIsAlike | core/apps/capture_node_api/lib/search/node.py:135-144 | the copy as written is like the original exactly if no operator in it was turned over |
| QueryAsWritten.PushedQuery | core/apps/capture_node_api/lib/search/node.py:180-218 | what becomes of `(c or d) and not (a and b)` when the NOT is pushed down |
| QueryAsWritten.WrittenSpreadWrong | core/apps/capture_node_api/lib/search/node.py:242-271 | a flow for which that search holds, and does not once it is distributed with copies as written |
| ReadOnce.WrittenCopyMeansSameIff | core/apps/capture_node_api/lib/search/node.py:135-144 | for a tree that asks each thing once the copy as written means the same exactly if no operator was turned over |
| ReadOnce.WrittenSpreadRightIff | core/apps/capture_node_api/lib/search/node.py:242-271 | and distribution with such copies keeps the meaning exactly if there is one alternative only or nothing copied was turned over |
| Prune.NestedOrDisjoint | core/apps/capture_node_api/lib/search/node.py:615-629 | two blocks of addresses are nested or have nothing in common |
| Prune.BlockBits | core/apps/capture_node_api/lib/search/node.py:640-646 | a network starts at a multiple of its size, 2 to the number of free bits, and has exactly the addresses with its leading bits |
| Prune.RangeSize | core/apps/capture_node_api/lib/search/node.py:640-646 | from its network address to its broadcast address there are 2 to the number of free bits addresses |
| Prune.AtomsCompare | core/apps/capture_node_api/lib/search/node.py:607-684 | the tests that prune makes are containment and overlap of the ranges of the atoms |
| Prune.NamesByFields | core/apps/capture_node_api/lib/search/node.py:641-683 | an address atom names the flows whose address is of its version and has its leading bits, a port atom those with the port |
| Prune.SupersetImplies | core/apps/capture_node_api/lib/search/node.py:607-684 | what one atom containing another means for flows, for each combination of signs |
| Prune.AndClause.PrunePair | core/apps/capture_node_api/lib/search/node.py:383-437 | comparing two atoms keeps the meaning and a positive atom, or shows that nothing can match |
| Prune.AndClause.Prune | core/apps/capture_node_api/lib/search/node.py:373-452 | the clause is out exactly if two of its atoms ask opposite things of one address or port, and then nothing can match; otherwise what is left means the same and is, for each atom, one that stands for it, none standing for another; it fails exactly without a positive atom |
| Prune.OrRoot.Prune | core/apps/capture_node_api/lib/search/node.py:524-532 | it fails exactly if a clause has no positive atom or every clause asks opposite things; otherwise the clauses left are the others, pruned and in their order, and the search finds what it found |
| SubSearches.PrunedUnique | core/apps/capture_node_api/lib/search/node.py:373-452 | a clause determines what pruning leaves of it, up to the order |
| SubSearches.LeftUnique | core/apps/capture_node_api/lib/search/node.py:524-532 | and a search what pruning leaves of its clauses |
| SubSearches.LeftMeans | core/apps/capture_node_api/lib/search/node.py:524-532 | what is left finds what was to be found |
| SubSearches.FirstMeans | core/apps/capture_node_api/lib/search/node.py:352-364 | what the first clauses of each name find is found by some clause, and is all if no two clauses left differ in signs alone |
| SubSearches.OneSignedTells | core/apps/capture_node_api/lib/search/node.py:352-364 | which is so if no sub-search occurs with both signs |
| Describe.SubFinds | core/apps/capture_node_api/lib/search/node.py:641-683 | the range of an atom finds the flows the atom names |
| Describe.DescribeSearch | core/apps/capture_node_api/lib/search/node.py:468-505 | the description can be run, wants what the pruned search finds, finds what the first clause of each name finds, and tells signs apart exactly if the clauses do |
| Describe.FindsFirstOfName | indexer/search/search.c:759-776 | running a description finds exactly the flows that the first clause of some name finds |
| Describe.Answer | core/apps/capture_node_api/lib/search/node.py:468-532 | prune, describe and search: it fails exactly if a clause has no positive atom or all ask opposite things; otherwise exactly the places of the flows that meet the first clause of some name among those left by pruning, which are only flows the search finds, and all of them if no two clauses left differ in signs alone |
| Answers.AnswerSearch | core/apps/capture_node_api/lib/search/node.py:146-178 | from any tree of ANDs, ORs, NOTs and atoms to places of flows it asks for, and of all of them if no two atoms, with the NOTs pushed down, ask for one range with opposite signs; for every search exactly the flows that meet the first clause of some name among those left of the search multiplied out; and it ends otherwise exactly for a NOT in the wrong place, more than 65535 clauses or atoms in one, a search that holds where no atom does, or clauses that all ask opposite things |
| Answers.OneAtomAsks | core/apps/capture_node_api/lib/search/node.py:641-683 | what a search of one atom asks for, by the version and the leading bits of the address in the packet or by its port |
| Answers.AnswerIsDetermined | core/apps/capture_node_api/lib/search/node.py:352-364 | for every search there is one list of flows only that the clauses left of it find |
| SearchClauses.LeftDetermined | core/apps/capture_node_api/lib/search/node.py:373-532 | and one list of clauses only that is left of it, up to the order within a clause |
| SearchClauses.SameSignsTell | core/apps/capture_node_api/lib/search/node.py:352-364 | if no two atoms of a search ask for one range with opposite signs, no two clauses left differ in signs alone |
| SearchClauses.AllInConflict | core/apps/capture_node_api/lib/search/node.py:524-532 | every clause asks opposite things exactly if the search multiplied out has no other |
| Answers.NothingMeets | core/apps/capture_node_api/lib/search/node.py:439-452 | some clause has no positive atom exactly if the search as it was holds for what no atom asks for |
| Answers.HugeMeans | core/apps/capture_node_api/lib/search/node.py:242-271 | the normal form is too large exactly if the search multiplied out is |
| Answers.CaptureSearchFetch | indexer/search/search.c:637-806 | the whole way: all packets of the flows found that are within the limits, each once, in order of time if captured so; the flows are those of AnswerSearch, and it fails only as AnswerSearch does |
| Queues.FirstInFirstOut | indexer/queue.c:20-106 | forced pops give the items in the order they were pushed |
| Queues.Queue.Push | indexer/queue.c:20-57 | an item is added at the end exactly if the queue is not closed |
| Queues.Queue.TryPop | indexer/queue.c:63-106 | the first item is taken; a closed queue gives nothing unless forced |
| Pipeline.StaysOrderly | indexer/pcapdb.c:488-583 | each step keeps the order of the shutdown: no queue is closed while anyone can still push to it |
| Pipeline.StaysInOnePlace | indexer/bucketize.c:10-111 | each step keeps every bucket in exactly one place |
| Pipeline.CountAllPlaces | indexer/bucketize.c:10-111 | a bucket counted once among chains is in one of them, once, and in no other |
| Pipeline.StaysLinked | indexer/bucketize.c:48-58 | each step keeps the next pointers in agreement with the chains handed on |
| Pipeline.StaysBalanced | indexer/output.c:16-54 | each step keeps the number of copies of each chain on its way, less those sent |
| Pipeline.Safety | indexer/pcapdb.c:488-583 | in every state of every run no push was refused and every bucket is in exactly one place |
| Pipeline.ShutdownIsComplete | indexer/pcapdb.c:488-541 | when the shutdown is through every chain sent was written, as often as sent, and every bucket freed exactly once |
| PipelineProgress.Progress | indexer/pcapdb.c:488-583 | in every state of every run the shutdown is through, or some step takes it further, or it hangs on the wait for a bucket |
| PipelineProgress.HungForGood | indexer/bucketize.c:50-58 | in a state that hangs only polling steps are left, and they lead to states that hang |
| PipelineProgress.NeverFinished | indexer/pcapdb.c:515-521 | a run that hangs never gets through |
| PipelineProgress.HungHoldsAll | indexer/bucketize.c:50-58 | then waiting capture threads hold all buckets |
| PipelineProgress.SparedByABucket | indexer/bucketize.c:50-58 | it cannot hang while some bucket is elsewhere |
| PipelineProgress.SomeRunHangs | indexer/bucketize.c:50-58 | a run that hangs |
| BucketWaits.NothingOnlyIfRobbed | indexer/queue.c:63-106 | in every run a capture thread is given nothing only if another one has taken a bucket since it was woken, and never because of a closed queue |
| BucketWaits.NeverAlone | indexer/bucketize.c:50-58 | with one capture thread it does not happen |
| BucketWaits.SomeoneIsWoken | indexer/queue.c:20-57 | no wake-up is lost: while threads sleep and there is a bucket, some thread has been woken for it |
| BucketWaits.SafeWhileWaiting | indexer/bucketize.c:50-58 | the pipeline is safe in these runs as well |
| BucketWaits.SomeRunGivesNothing | indexer/bucketize.c:50-58 | a run with two capture threads in which one is given nothing |

## Left out

- The bytes of the capture file: packets are values with their sizes; the bytes of flow index,
  sub-index files, result files and flow records are modelled.
- Splay.SplayTrInsert: the lists of packets and flows of a node are sequences, not linked nodes; the
  links between tree nodes are real.
- IndexBucket.IndexChain: the seven roots and four counters of an index set are maps by kind of tree
  rather than named fields; parsing of packets is not part of this model, a record has its fields.
- OrderedSets.OrderedSet.FillBuffer: a read too short to complete one record leaves the buffer
  empty, which the program takes for the end of the file; Peek assumes that a read returns a whole
  record.
- SkipLists.SkipList.Add: a set is not added again after one was removed for good, which would need
  the upper levels to be set up anew; the program adds only before it removes.
- Unions.Union: fewer than 65536 sets, beyond which the array of links is overrun
  (`SkipLists.LevelsFitIff`); so `SearchLib.AndResults`, `Slots.FetchSlots` and `Describe.Answer`
  have the same limit, and `Answers.AnswerSearch` ends with TooLarge (`Answers.IsHuge`) where the
  program would overrun it.
- Keys.FlowKeyMerge: the shifts as they are meant, on unbounded counts;
  `Keys.WrittenPacketsRightIffSmall` says when those as written do the same.
- FlowUnions.MergedCounts: packets, and while the sum fits in 32 bits; beyond it each merge may lose
  up to a unit of the exponent (`Keys.MergeFlowKeysMeaning`).
- SubIndex.FindFirst: the search as it is meant; when the one as written does the same is said by
  `SubIndexAsWritten.FileSearchRightIff`. `Describe`, `Answers` and `EndToEnd.IndexAndSearch` use
  the search as it is meant, with the end of file repaired; what they say of a sub-search holds of
  the one as written under the condition of `RangeAsWritten.RangeSearchRightIff`.
- SubIndex.SearchPreview: likewise; `SubIndexAsWritten.SearchFallsThroughIff` says when the loop as
  written leaves the tree.
- SubIndex.SearchIndex: likewise; `WalkAsWritten.WrittenSearchRightIff` has the loops as written.
- SubIndexSearch.SearchSubindex: the walk to the first record is the one as it is meant, the scan to
  the end of the range has both forms; `RangeAsWritten.RangeSearchRightIff` has both as written.
- WalkAsWritten.WrittenSearchRightIff: what a step below the leaves does is not modelled beyond that
  it is not right (a shift by minus one is undefined).
- EndToEnd.RunSearch: none of the results of the search is there before; a result left by another
  search of the same name is not modelled. One slot at a time; what several slots find is merged by
  `Slots.FetchSlots`.
- Normalize.NormalizeTree: with copies as written it is proved right for searches without an AND or
  OR below an odd number of NOTs, not that it is wrong for all others. The exact condition is proved
  for one copy and one distribution (`ReadOnce`); which copies a whole normalisation makes depends
  on what has merged before.
- Normalize.NormalizeTree: an AND or OR without subtrees is not allowed, since an empty OR below an
  AND makes collapse raise IndexError; the parser makes none.
- SubIndexLayout.OpenIndex: the product of record size and count is not taken modulo 2^64.
- PacketMerge.MergeFlows: the time of the next packet is read only if there is one
  (`FlowFetch.StampInsideIff`).
- Collapse.Copy: the copy as written only of trees in which no operator was turned over; for all
  trees `QueryAsWritten.WrittenCopyIsAlike` says when it is alike.
- FlowFetch.FetchPackets: packets have a size but no contents, so the bytes copied are not modelled.
- Pipeline.Safety: each lock-protected block of a queue operation is one step; signals and time are
  not modelled, and the packets in a bucket only as far as the bucket belongs to a chain.
- Pipeline.StaysInOnePlace: a pop that comes back with nothing is another try; `BucketWaits` says
  when a capture thread goes on with nothing.
- BucketWaits.NothingOnlyIfRobbed: wake-ups without a signal are not modelled, nor what a thread
  does with the null bucket, which ends the run.
- PipelineProgress.Progress: that some step is open, not that a fair scheduler takes it.
- Errors of reading, writing and allocating, and the database that hands out slots.
- The parser of search strings, and the search description as text.
- Retention of old slots, capture statistics and the web interface.
