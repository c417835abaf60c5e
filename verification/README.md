# Verified models of the lbs library

This project models, in Dafny, the parts of the lbs C library whose correctness is hard to see, and
proves what each of them promises.

* **Left-leaning red-black tree** (`Rb*.dfy`). `RbShape` relates the nodes on the heap to a ghost tree
  that names them; `RbSpec` and `RbTheorems` say what insertion and removal make of such a tree and
  prove the rules of the header; `RbInsert` and `RbRemove` are the pointer steps, one method for every
  case of the code; `RbTree` holds the loops and the tree object; `RbIter` is the iteration. The key of
  the removal loop is the hole: the operated node has a single subtree, one black level short, and its
  `lnode` and `rnode` are the same pointer at the top of every round (`RbRemove.Hole`).
* **2-3 tree** (`TwoThree*.dfy`), built the same way over `TwoThreeHeap`. `TwoThreeInsert` follows an
  entry that climbs through nodes with four children, `TwoThreeDelete` and `TwoThreeFix` the eight ways
  to mend a node without keys. `Collapse` shows that folding every red link into a 3-node turns
  red-black insertion into 2-3 insertion.
* **SHA-1 and MD5** (`Blocks`, `Sha1`, `Md5`). The unrolled block functions against the definitions of
  FIPS 180-4 and RFC 1321, and the incremental contexts against the folding of the block function.
  `Sha1Abc` and `Md5Abc` follow the definitions through the standards' message abc.
* **Read/write lock** (`RwLock`), **thread pool** (`TaskServer`, `ThreadPool`), **packet units of the
  server** (`ServerPath`), **event rings** (`EventRing`) and **timers** (`TimerList`). What runs in
  parallel is a state machine whose steps are the sections under a lock, or single accesses where the
  code takes no lock; the theorems speak of every state of every run, for any number of threads.
* **Framing** (`Framing`): packing a payload and unpacking frames from a stream that arrives in pieces.

The machine is the one the library is written for: 32-bit `int`, `unsigned long` and pointers, little
endian. Words are wrapped explicitly where the code can make them wrap. Allocation succeeds, as the
red-black tree assumes when it inserts a root. `Valid()` of a tree object says that the heap holds a
well-formed tree and that the counters are right; every method requires and ensures it, so it holds
after any sequence of calls.

Results that contradict what a reader may expect of the code:

* A 2-3 insertion of a key that is already there never gives back the node it allocated
  (`TwoThreeTree.Tree23.Insert`).
* A reader that asks for the write lock, or that asks for another read lock while a writer owns the
  section, locks everybody out: from then on no thread gets the write lock, and a writer in its loop
  spins for ever. In every other state each thread that has asked for the write lock gets it in some
  continuation (`RwLock.UpgradeHangs`; `RwLock.OwnReadHold` and `RwLock.BlockedReader` are runs that end
  so).
* A piece of a frame that completes a split head, is shorter than 16 bytes and does not complete the
  frame makes the unpacking copy a wrapped-around number of bytes. Frames come out exactly when no piece
  is of that kind (`Framing.Reassembly`; `Framing.ShortPieceFails` is a cut that fails).
* Bytes behind a frame are kept as they are exactly when the frame began in an earlier piece and no more
  than the frame was held back. When it came in one piece, its tail is kept with them; when a second whole
  frame is held back, the next call fails (`Framing.Coalesced`; `Framing.SecondFrameLost` is a run that
  loses a frame so).
* A corrupt head is noticed exactly when it comes in one piece with nothing held back; a split one is
  never checked (`Framing.CorruptHead`).
* A package that is pushed or recollected with its link set spoils the list it opens
  (`TaskServer.Server.Push`).
* A sweep whose first timer is due and not reset examines no other timer. All timers, up to twenty, are
  examined exactly when the first is alone, not due, or reset (`TimerList.Timers.Sweep`;
  `TimerList.SecondWaits` is a list where a due timer has to wait).

## Model

| member | source | states |
|---|---|---|
| RbTree.RbTree.constructor | src/rbtree/rbtree/rbtree.c:145-191 | a new tree is well formed and empty, and its pool has the requested number of fresh blank nodes |
| RbTree.RbTree.Insert | src/rbtree/rbtree/rbtree.c:345-507 | an absent key adds exactly one binding, raises `count` by one and `depth` exactly when every 3-node on the way is full; a present one is refused or has only its data replaced and returned; integrity mode never reports corruption |
| RbTree.RbTree.Locate | src/rbtree/rbtree/rbtree.c:363-386 | the loop ends at the node with the key, or at the one below whose empty side the key belongs |
| RbTree.RbTree.InsertNew | src/rbtree/rbtree/rbtree.c:388-500 | hanging in the new node leaves a well-formed tree, the one bottom-up splitting defines |
| RbTree.RbTree.Hang | src/rbtree/rbtree/rbtree.c:396-498 | the climbing loop turns the tree with a node one too high into the split one, moves the root mark with the root and counts the depth |
| RbTree.RbTree.SplitStep | src/rbtree/rbtree/rbtree.c:399-459 | one round on a full 3-node: three nodes are re-hung as two 2-nodes below the middle one, which is handed upwards or becomes the root |
| RbTree.RbTree.AbsorbStep | src/rbtree/rbtree/rbtree.c:460-497 | the last round: a 2-node takes the node in, and links, colours, link flags and root mark are right everywhere |
| RbTree.RbTree.InsertRoot | src/rbtree/rbtree/rbtree.c:205-224 | the first node is a black marked root of depth and count one |
| RbTree.RbTree.PopNode | src/rbtree/rbtree/rbtree.c:193-203 | a node is the first of the pool chain, or a new blank one |
| RbTree.RbTree.ChangeRoot | src/rbtree/rbtree/rbtree.c:79-88 | the mark, the parent link and the depth follow the root |
| RbTree.RbTree.Update | src/rbtree/rbtree/rbtree.c:366-371 | replacing the data of a key changes that binding and no link, colour or other binding |
| RbTree.RbTree.Search | src/rbtree/rbtree/rbtree.c:226-251 | the node returned is that of the key, null exactly when the key is absent, after at most twice `depth` nodes |
| RbTree.RbTree.Remove | src/rbtree/rbtree/rbtree.c:509-712 | a present key is returned with its data, the map loses exactly that key, `count` drops by one, exactly one node is freed, all rules hold again and `depth` drops exactly when every node above the hole is a 2-node next to a 2-node; integrity mode never reports corruption |
| RbTree.RbTree.TakeOut | src/rbtree/rbtree/rbtree.c:526-705 | the tree without the node's key is the one hole-climbing defines, without the freed node |
| RbTree.RbTree.SwapSuccessor | src/rbtree/rbtree/rbtree.c:526-532 | the successor becomes the operated node: a hole over nothing, with both of its links null |
| RbTree.RbTree.TakeRed | src/rbtree/rbtree/rbtree.c:534-541 | a bottom node with a red child keeps the child's entry and lets the red node go |
| RbTree.RbTree.Climb | src/rbtree/rbtree/rbtree.c:558-702 | the removal loop terminates, keeps a hole with `lnode == rnode` over a subtree one black level short, and ends with the tree and the freed node that the climbing defines |
| RbTree.CheckIntegrity | src/rbtree/rbtree/rbtree.c:90-122 | on any linked nodes, also with wrong link flags, the recursive check accepts exactly when every node and its flag fit its children |
| RbTree.WellFormedIsSound | src/rbtree/rbtree/rbtree.c:90-122 | every well-formed tree passes the integrity check |
| RbTree.LevelsBound | src/rbtree/rbtree/rbtree.c:226-251 | no path is longer than twice the black height |
| RbTree.RbTree.CountBounds | inc/rbtree.h:6-18 | a tree of depth d holds at least 2^d - 1 and at most 3^d - 1 keys, and `count` is their number |
| RbTheorems.SeekFinds | src/rbtree/rbtree/rbtree.c:226-251 | the search path ends at a node exactly when the key is bound, and that node has its data |
| RbTheorems.InsertTheorem | src/rbtree/rbtree/rbtree.c:345-507 | for every well-formed tree and absent key: the new tree is well formed, its map is the old one with the pair, one node more, and one black level more exactly when the root 3-node splits |
| RbTheorems.UpdateTheorem | src/rbtree/rbtree/rbtree.c:366-371 | changing one node's data keeps the rules and changes one binding |
| RbTheorems.RemoveTheorem | src/rbtree/rbtree/rbtree.c:509-712 | for every well-formed tree and present key: the new tree is well formed, its map is the old one without the key, exactly one node is gone, and a black level is lost exactly when the hole climbs to the root |
| RbTheorems.SuccPlace | src/rbtree/rbtree/rbtree.c:526-532 | the successor is a bottom node of the same tree, on a path that passes the swapped entry |
| RbSpec.InsertUpRB | src/rbtree/rbtree/rbtree.c:396-498 | splitting upwards keeps colours, left-only reds and black height |
| RbSpec.InsertUpInOrder | src/rbtree/rbtree/rbtree.c:396-498 | splitting upwards keeps every entry in its place in the order |
| RbSpec.InsertUpNodes | src/rbtree/rbtree/rbtree.c:396-498 | splitting upwards loses and repeats no node |
| RbSpec.RemoveUpRB | src/rbtree/rbtree/rbtree.c:558-702 | the six loans and merges restore colours, left-only reds and black height |
| RbSpec.RemoveUpInOrder | src/rbtree/rbtree/rbtree.c:558-702 | the loans and merges keep every entry in its place in the order |
| RbSpec.RemoveUpNodes | src/rbtree/rbtree/rbtree.c:558-702 | the loans and merges keep all nodes but the freed one |
| RbSpec.UnderflowBrother | src/rbtree/rbtree/rbtree.c:566-571 | a hole below a black level always has a brother that lends or merges, so no null link is followed |
| RbSpec.BorrowRB | src/rbtree/rbtree/rbtree.c:588-664 | a loan gives the parent's subtree its full black height and its rules back |
| RbSpec.MergeUnderflow | src/rbtree/rbtree/rbtree.c:665-700 | after a merge the parent is a hole over a subtree one black level short |
| RbInsert.SplitLeft | src/rbtree/rbtree/rbtree.c:414-425 | node below a red parent: links, parents and colours of the split 3-node |
| RbInsert.SplitRight | src/rbtree/rbtree/rbtree.c:426-438 | node right of a black parent with a red link: the split 3-node |
| RbInsert.SplitMiddle | src/rbtree/rbtree/rbtree.c:439-454 | node between the two keys of the 3-node: it takes their place |
| RbInsert.AbsorbLeft | src/rbtree/rbtree/rbtree.c:463-471 | a 2-node takes a red left child |
| RbInsert.AbsorbRight | src/rbtree/rbtree/rbtree.c:472-495 | a 2-node becomes the red left child of the new node |
| RbRemove.FillRed | src/rbtree/rbtree/rbtree.c:573-586 | a red hole is filled with its subtree, and the parent loses its red link |
| RbRemove.BorrowNephew | src/rbtree/rbtree/rbtree.c:590-609 | red brother whose right child has a red link: heap and ghost tree agree after the loan |
| RbRemove.BorrowRed | src/rbtree/rbtree/rbtree.c:610-628 | red brother otherwise: heap and ghost tree agree after the loan |
| RbRemove.BorrowLeft | src/rbtree/rbtree/rbtree.c:632-647 | hole on the left, brother with a red link: heap and ghost tree agree after the loan |
| RbRemove.BorrowRight | src/rbtree/rbtree/rbtree.c:648-664 | hole on the right, brother with a red link: heap and ghost tree agree after the loan |
| RbRemove.MergeLeft | src/rbtree/rbtree/rbtree.c:667-683 | hole on the left, plain brother: the parent is the next hole, and both of its links name the merged subtree |
| RbRemove.MergeRight | src/rbtree/rbtree/rbtree.c:684-699 | hole on the right, plain brother: the parent is the next hole, and both of its links name the merged subtree |
| RbRemove.BorrowStep | src/rbtree/rbtree/rbtree.c:588-664 | the case the code picks is the one the shape calls for |
| RbRemove.MergeStep | src/rbtree/rbtree/rbtree.c:665-700 | the merge the code picks is the one the shape calls for |
| RbRemove.First | src/rbtree/rbtree/rbtree.c:253-266 | the leftmost node, also while the tree above is in pieces |
| RbIter.Last | src/rbtree/rbtree/rbtree.c:268-281 | the last node in order |
| RbIter.Next | src/rbtree/rbtree/rbtree.c:283-312 | from the i-th node in order to the next one, null after the last and for null; the climb to the root mark terminates |
| RbIter.Prev | src/rbtree/rbtree/rbtree.c:314-343 | from the i-th node in order to the one before, null before the first and for null |
| RbIter.NextThenPrev | src/rbtree/rbtree/rbtree.c:283-343 | going on and back returns to the same node, and keys ascend |
| RbIter.Walk | src/rbtree/rbtree/rbtree.c:253-312 | following the next node from the first visits every key exactly once in ascending order and stops after `count` nodes |
| RbIter.NodesHoldEntries | src/rbtree/rbtree/rbtree.c:253-312 | the i-th node in order holds the i-th entry |
| Collapse.CollapseKeeps | src/rbtree/rbtree/rbtree.c:397-498 | folding red links into 3-nodes keeps the entries and turns black height into height |
| Collapse.CollapseInsertUp | src/rbtree/rbtree/rbtree.c:397-498 | every split and absorption of the red-black tree is one of the 2-3 tree |
| Collapse.InsertCommutes | src/lbs_bst/lbs_bst/lbs_23tree.c:558-679 | for every well-formed tree and new key, folding after red-black insertion is 2-3 insertion after folding, and the roots split together |
| TwoThreeTree.Tree23.Insert | src/lbs_bst/lbs_bst/lbs_23tree.c:723-770 | an absent key adds exactly one binding, raises `node_count` by one and `level` exactly when the root splits; a present one changes nothing but leaves one node allocated for ever; a null value is refused |
| TwoThreeTree.Tree23.InsertInto | src/lbs_bst/lbs_bst/lbs_23tree.c:638-679 | the recursion carries the pending middle key upwards over nodes with one child too many and leaves the tree that splitting defines, with the level, the root mark and the freed node right |
| TwoThreeTree.Tree23.Rise | src/lbs_bst/lbs_bst/lbs_23tree.c:659-668 | a divided node hangs both halves into its parent, or grows a new root and a level |
| TwoThreeTree.Tree23.GrowRoot | src/lbs_bst/lbs_bst/lbs_23tree.c:659-663 | the node with the middle key is the root over both halves |
| TwoThreeTree.Tree23.ChangeRoot | src/lbs_bst/lbs_bst/lbs_23tree.c:27-37 | root link, parent link and mark move to the new root |
| TwoThreeTree.Tree23.Search | src/lbs_bst/lbs_bst/lbs_23tree.c:772-802 | the value of a present key, not-found for an absent one, after at most `level` nodes |
| TwoThreeTree.Tree23.Delete | src/lbs_bst/lbs_bst/lbs_23tree.c:804-843 | a present key is the only binding lost, `node_count` drops by one, `level` drops exactly when a drained leaf and all nodes above it are 2-nodes next to 2-nodes, and no node is leaked; absent keys, the empty tree and the invalid key are told apart |
| TwoThreeTree.Tree23.RemoveKey | src/lbs_bst/lbs_bst/lbs_23tree.c:467-494 | a 3-node leaf keeps its other key; a 2-node leaf is mended away |
| TwoThreeTree.Tree23.FixNull | src/lbs_bst/lbs_bst/lbs_23tree.c:213-465 | the upward recursion terminates, ends with the tree the loans and merges define, frees exactly the nodes that are gone and lowers `level` exactly when the root loses its last key |
| TwoThreeTree.Tree23.FixMerged | src/lbs_bst/lbs_bst/lbs_23tree.c:289-303 | after a merge below a 2-node the merged node becomes the root, or the parent the next hole one level up |
| TwoThreeTree.SearchEnds | src/lbs_bst/lbs_bst/lbs_23tree.c:496-521 | the node a probe ends at has the key exactly when it is bound |
| TwoThreeTree.Tree23.CountBounds | src/lbs_bst/lbs_bst/lbs_23tree.c:496-521 | a tree of level h holds at least 2^h - 1 and at most 3^h - 1 keys, and `node_count` is their number |
| TwoThreeTree.Drain | src/lbs_bst/lbs_bst/lbs_23tree.c:523-556 | after the swap with the successor the key is the left key of a leaf, and dropping it there deletes it from the tree |
| TwoThreeTheorems.SeekFinds | src/lbs_bst/lbs_bst/lbs_23tree.c:496-521 | a search ends at a node exactly when the key is bound, and that node has its data |
| TwoThreeTheorems.ProbeSeek | src/lbs_bst/lbs_bst/lbs_23tree.c:496-521 | a probe ends at the node with the key, or at the leaf below which it belongs |
| TwoThreeTheorems.ProbeMin | src/lbs_bst/lbs_bst/lbs_23tree.c:540-545 | below keys that are all greater, probing for the next key value reaches the leftmost leaf |
| TwoThreeTheorems.ProbeSuccessor | src/lbs_bst/lbs_bst/lbs_23tree.c:540-545 | probing for key + 1 from an interior node always lands on the in-order successor, as the left key of a leaf |
| TwoThreeTheorems.InsertTheorem | src/lbs_bst/lbs_bst/lbs_23tree.c:638-679 | for every well-formed tree and new key: all leaves at one depth, keys sorted, the old map with the pair, one level more exactly when the root splits |
| TwoThreeTheorems.DeleteTheorem | src/lbs_bst/lbs_bst/lbs_23tree.c:804-843 | for every well-formed tree and present key: all leaves at one depth, keys sorted, the old map without the key, one level less exactly when the merges reach the root |
| TwoThreeSpec.InsertUpBalanced | src/lbs_bst/lbs_bst/lbs_23tree.c:638-679 | splitting keeps all leaves at one depth |
| TwoThreeSpec.InsertUpInOrder | src/lbs_bst/lbs_bst/lbs_23tree.c:638-679 | splitting keeps every entry in its place in the order |
| TwoThreeSpec.DeleteUpBalanced | src/lbs_bst/lbs_bst/lbs_23tree.c:213-465 | loans and merges keep all leaves at one depth |
| TwoThreeSpec.DeleteUpInOrder | src/lbs_bst/lbs_bst/lbs_23tree.c:213-465 | loans and merges keep every entry in its place in the order |
| TwoThreeInsert.MergeNodes | src/lbs_bst/lbs_bst/lbs_23tree.c:558-580 | of three keys the node keeps the middle one and the parent the others; a 3-node is refused |
| TwoThreeInsert.DivideNode | src/lbs_bst/lbs_bst/lbs_23tree.c:582-605 | the larger key and the two right children go to a fresh node |
| TwoThreeInsert.SplitNode | src/lbs_bst/lbs_bst/lbs_23tree.c:648-657 | a node with four children and a pending key becomes two 2-nodes around the middle key |
| TwoThreeInsert.HangHalf | src/lbs_bst/lbs_bst/lbs_23tree.c:664-667 | after the division the node above is the crowded one |
| TwoThreeInsert.Absorb | src/lbs_bst/lbs_bst/lbs_23tree.c:669-677 | a 2-node takes the entry in on the right side |
| TwoThreeInsert.TakeIn | src/lbs_bst/lbs_bst/lbs_23tree.c:669-676 | a 2-node that takes a key in becomes a 3-node if and only if the key is not the one that marks a missing right key |
| TwoThreeDelete.BorrowRight3 | src/lbs_bst/lbs_bst/lbs_23tree.c:237-251 | right hole below a 3-node, middle brother lends |
| TwoThreeDelete.ShrinkRight3 | src/lbs_bst/lbs_bst/lbs_23tree.c:252-269 | right hole below a 3-node, middle brother takes the parent's key |
| TwoThreeDelete.BorrowRight2 | src/lbs_bst/lbs_bst/lbs_23tree.c:273-288 | right hole below a 2-node, brother lends |
| TwoThreeDelete.MergeRight2 | src/lbs_bst/lbs_bst/lbs_23tree.c:289-303 | right hole below a 2-node, brother takes the parent's only key |
| TwoThreeDelete.BorrowMid3 | src/lbs_bst/lbs_bst/lbs_23tree.c:315-334 | middle hole, right brother lends |
| TwoThreeDelete.ShrinkMid3 | src/lbs_bst/lbs_bst/lbs_23tree.c:335-351 | middle hole, right brother takes the parent's key |
| TwoThreeDelete.BorrowLeft3 | src/lbs_bst/lbs_bst/lbs_23tree.c:358-377 | left hole below a 3-node, middle brother lends |
| TwoThreeDelete.ShrinkLeft3 | src/lbs_bst/lbs_bst/lbs_23tree.c:378-403 | left hole below a 3-node: the hole takes two keys and the middle brother is freed |
| TwoThreeDelete.BorrowLeft2 | src/lbs_bst/lbs_bst/lbs_23tree.c:404-430 | left hole below a 2-node, brother lends |
| TwoThreeDelete.MergeLeft2 | src/lbs_bst/lbs_bst/lbs_23tree.c:431-449 | left hole below a 2-node, brother takes the parent's only key |
| TwoThreeFix.MendStep | src/lbs_bst/lbs_bst/lbs_23tree.c:230-465 | the case the code picks is the one the shape calls for, and what it leaves is a mended subtree or a merged one below a node without keys |
| TwoThreeSearch.SearchNodeOrParent | src/lbs_bst/lbs_bst/lbs_23tree.c:496-521 | the node found, the kind of the match, and at most one node per level |
| TwoThreeSearch.GetSuccessorAndSwap | src/lbs_bst/lbs_bst/lbs_23tree.c:523-556 | in an interior node the entry and its in-order successor change places and the successor's leaf is returned |
| TwoThreeSearch.SwapEntries | src/lbs_bst/lbs_bst/lbs_23tree.c:547-553 | the two entries are exchanged and the rest of the tree stays as it is |
| Sha1.Hash | src/hash/hash/sha1.c:30-89 | for every state and block, the unrolled rounds over the circular schedule give the state of the 80-word definition (section 6.1.2 of FIPS 180-4) |
| Sha1.AllRounds | src/hash/hash/sha1.c:41-77 | after the eighty calls the working variables are those of the definition, in the right order |
| Sha1.Blk0 | src/hash/hash/sha1.c:12-14 | a byte-swapped load is the big-endian word of the block |
| Sha1.Blk | src/hash/hash/sha1.c:21 | the in-place word is the next word of the 80-word schedule (section 6.1.3 of FIPS 180-4) |
| Sha1.MixBits | src/hash/hash/sha1.c:21 | bit k + 1 of a new schedule word, counted around the word, is the exclusive or of the bits k of the four old words |
| Sha1.SwappedIsBig | src/hash/hash/sha1.c:13-14 | the two masked rotations reverse the four bytes |
| Sha1.Choice | src/hash/hash/sha1.c:23-24 | the rewritten choice function is the standard's |
| Sha1.Majority | src/hash/hash/sha1.c:26 | the rewritten majority function is the standard's |
| Sha1.R0 | src/hash/hash/sha1.c:23 | one step of rounds 0 to 15 in rotated register names |
| Sha1.R1 | src/hash/hash/sha1.c:24 | one step of rounds 16 to 19 |
| Sha1.R2 | src/hash/hash/sha1.c:25 | one step of rounds 20 to 39 |
| Sha1.R3 | src/hash/hash/sha1.c:26 | one step of rounds 40 to 59 |
| Sha1.R4 | src/hash/hash/sha1.c:27 | one step of rounds 60 to 79 |
| Sha1.Context.constructor | src/hash/hash/sha1.c:96-107 | the initial chaining value, no bytes, no bits |
| Sha1.Context.Process | src/hash/hash/sha1.c:114-138 | chaining value, waiting bytes and 64-bit count become those of folding the block function over the waiting bytes and the new ones |
| Sha1.Context.AddCount | src/hash/hash/sha1.c:122-126 | the two words count modulo 2^64, with the carry found by comparison |
| Sha1.Context.Final | src/hash/hash/sha1.c:144-186 | exactly the bit 1, the fewest zeros and the length are processed, the digest is the final state most significant byte first, and the context is wiped |
| Sha1.Context.Pad | src/hash/hash/sha1.c:173-178 | the byte-wise loop appends 0x80 and the fewest zero bytes, and stops |
| Sha1.DigestTellsState | src/hash/hash/sha1.c:180-182 | the digest's bytes determine the final chaining value: every word can be read back, most significant byte first |
| Sha1.DigestOfChunks | src/hash/hash/sha1.c:114-186 | for every list of chunks, start, feed and finish give the digest of the concatenation (sections 4 and 6.1 of RFC 3174), of whole blocks |
| Sha1.LengthWords | src/hash/hash/sha1.c:168-171 | the length is written as two words, the number of full 2^32 bits first |
| Sha1Abc.AbcDigest | src/hash/hash/sha1.c:30-186 | the digest of the message abc is the one that section 7.3 of RFC 3174 prints, by all eighty rounds |
| Blocks.ChunkIndependence | src/hash/hash/sha1.c:114-138 | feeding any list of chunks leaves what feeding their concatenation leaves |
| Blocks.AbsorbTwice | src/hash/hash/md5.c:111-143 | two chunks leave what their concatenation leaves |
| Blocks.FoldAppend | src/hash/hash/md5.c:127-137 | the full blocks of a concatenation are those of the first part, then those of its rest and the second part |
| Blocks.CountCarry | src/hash/hash/sha1.c:122-125 | both ways to detect the carry add 8 * len to the two-word counter |
| Blocks.ZeroCountMinimal | src/hash/hash/md5.c:156-160 | the number of zero bytes is the smallest that ends 8 bytes below a block boundary |
| Blocks.PaddedFold | src/hash/hash/md5.c:148-163 | feeding a message and its padding folds the padded message |
| Blocks.Copy | src/stdlbs/stdlbs/stdlbs.c:4-11 | the copy, from the last byte to the first, changes the target range and nothing else |
| Md5.Transform | src/hash/hash/md5.c:175-261 | for every state and block, the unrolled steps give the state of the table-driven description (section 3.4 of RFC 1321) |
| Md5.Selections | src/hash/hash/md5.c:61-64 | F picks bits of y and z by x, G picks bits of x and y by z, H adds up bit by bit, I turns y over where x or not z is set |
| Md5.FF | src/hash/hash/md5.c:73-77 | one step of round 1 in rotated register names |
| Md5.GG | src/hash/hash/md5.c:78-82 | one step of round 2 |
| Md5.HH | src/hash/hash/md5.c:83-87 | one step of round 3 |
| Md5.II | src/hash/hash/md5.c:88-92 | one step of round 4 |
| Md5.Round1 | src/hash/hash/md5.c:181-197 | the sixteen calls of round 1 are steps 0 to 15 with their words, rotations and constants |
| Md5.Round2 | src/hash/hash/md5.c:199-215 | the sixteen calls of round 2 are steps 16 to 31 |
| Md5.Round3 | src/hash/hash/md5.c:217-233 | the sixteen calls of round 3 are steps 32 to 47 |
| Md5.Round4 | src/hash/hash/md5.c:235-251 | the sixteen calls of round 4 are steps 48 to 63 |
| Md5.Decode | src/hash/hash/md5.c:281-288 | the words of the bytes, least significant byte first |
| Md5.Encode | src/hash/hash/md5.c:266-276 | the bytes of the words, least significant byte first |
| Md5.DecodeUndoesEncode | src/hash/hash/md5.c:266-288 | for every list of words, decoding the encoded bytes gives the words |
| Md5.DigestTellsState | src/hash/hash/md5.c:165-166 | the digest's bytes determine the final chaining value |
| Md5.Context.constructor | src/hash/hash/md5.c:96-105 | the initial chaining value, no bytes, no bits |
| Md5.Context.Update | src/hash/hash/md5.c:111-143 | chaining value, waiting bytes and 64-bit count become those of folding the block function over the waiting bytes and the new ones |
| Md5.Context.Final | src/hash/hash/md5.c:148-171 | exactly the bit 1, the fewest zeros and the length are processed, the digest is the final state least significant byte first, and the context is wiped |
| Md5.DigestString | src/hash/hash/md5.c:293-301 | the digest of a string is that of the standard's definition |
| Md5.DigestOfChunks | src/hash/hash/md5.c:96-171 | for every list of chunks, start, feed and finish give the digest of the concatenation (sections 3.1 to 3.5 of RFC 1321), of whole blocks |
| Md5.LengthWords | src/hash/hash/md5.c:154 | the length is written as two words, the number of full 2^32 bits last |
| Md5Abc.AbcDigest | src/hash/hash/md5.c:96-288 | the digest of the message abc is the one that section A.5 of RFC 1321 prints, by all sixty-four steps |
| RwLock.MoveInv | src/lbs_rwlock/lbs_rwlock/lbs_rwlock.c:37-135 | every step of every thread keeps the invariant of the lock |
| RwLock.ReadCall | src/lbs_rwlock/lbs_rwlock/lbs_rwlock.c:37-56 | from every state in which the section can be entered, the call's own steps end it with code 0, one more hold and one more reader, whatever other threads hold for reading, when the flag is clear; with code 1 and nothing changed when it is set |
| RwLock.ReadAnswer | src/lbs_rwlock/lbs_rwlock/lbs_rwlock.c:45-54 | in every run, whatever other threads do meanwhile, the flag at the test decides the code and the hold |
| RwLock.TwoReaders | src/lbs_rwlock/lbs_rwlock/lbs_rwlock.c:37-56 | a run in which two threads hold the lock for reading |
| RwLock.WriteCall | src/lbs_rwlock/lbs_rwlock/lbs_rwlock.c:58-78 | the call's own steps end it with code 0, one more write hold and the flag set when the flag is set or there is no reader; with readers they lead into the loop and stay there |
| RwLock.UnlockCall | src/lbs_rwlock/lbs_rwlock/lbs_rwlock.c:119-135 | the call's own steps give back one hold with code 0: a read hold, an inner write hold, or the last write hold with the flag and the section |
| RwLock.Safety | src/lbs_rwlock/lbs_rwlock/lbs_rwlock.c:37-78 | in every run `reader` counts the outstanding read holds, a set writer flag excludes them, and all write holds belong to the one owner |
| RwLock.LastUnlockReleases | src/lbs_rwlock/lbs_rwlock/lbs_rwlock.c:119-135 | the flag is cleared exactly by the unlock of the last of nested write holds |
| RwLock.WaitingWriter | src/lbs_rwlock/lbs_rwlock/lbs_rwlock.c:58-78 | while a writer waits, the number of readers never rises |
| RwLock.WriterGetsIn | src/lbs_rwlock/lbs_rwlock/lbs_rwlock.c:71-77 | the loop is left at the first look that finds no reader, and then there is one write hold and no read hold |
| RwLock.WriterReenters | src/lbs_rwlock/lbs_rwlock/lbs_rwlock.c:66-69 | a writer gets another write hold at once and is refused a read lock |
| RwLock.UpgradeHangs | src/lbs_rwlock/lbs_rwlock/lbs_rwlock.c:58-78 | in every state of every run, a thread that has called for the write lock gets it in some continuation if and only if no reader asks for the write lock and none that asks for another read lock is shut out by a writer; else no thread ever gets it, a writer in the loop stays there and those waiting to enter stay outside |
| RwLock.DoomedInLoop | src/lbs_rwlock/lbs_rwlock/lbs_rwlock.c:71-77 | for a thread in the loop that means: a read hold belongs to it or to a thread waiting to enter the section |
| RwLock.OwnReadHold | src/lbs_rwlock/lbs_rwlock/lbs_rwlock.c:71-77 | a run in which a reader asks for the write lock and is stuck |
| RwLock.BlockedReader | src/lbs_rwlock/lbs_rwlock/lbs_rwlock.c:43-77 | runs in which a reader locks again, for reading or writing, while a writer waits, and in no continuation does either get any further |
| RwLock.HoldKinds | src/lbs_rwlock/lbs_rwlock/lbs_rwlock.c:125-128 | the flag tells an unlocking thread which kind of hold it gives back |
| TaskServer.Server.Prepare | src/thp/thp/thp_task.c:142-181 | a recycled package before a new one, filled in and linked to nothing |
| TaskServer.Server.PushTail | src/thp/thp/thp_task.c:35-54 | the packages are counted and the package is linked behind the last one, linked to nothing; the one that opens a list keeps its own link, and the list is right if and only if that is null |
| TaskServer.Server.Push | src/thp/thp/thp_task.c:184-204 | the queue gets the package at its end, and the count is its length; the server stays well formed if and only if the queue was not empty or the package linked to nothing |
| TaskServer.Server.Pop | src/thp/thp/thp_task.c:207-238 | the first package leaves the queue unlinked; null and no-task when there is none |
| TaskServer.Server.Recollect | src/thp/thp/thp_task.c:275-302 | the package joins the recycled ones; it is cleaned and the caller's variable cleared only when it is not the first; the server stays well formed if and only if there were others or it linked to nothing |
| TaskServer.WalkToLast | src/thp/thp/thp_task.c:48-49 | the walk along the links ends at the last package and terminates |
| ThreadPool.MoveInv | src/thp/thp/thp_thread.c:132-186 | every step of every worker and client keeps places, tickets, order and count |
| ThreadPool.NothingElseAwaited | src/thp/thp/thp_thread.c:132-186 | in every state of a run a step is possible as soon as its thread is at its place: the packages it needs are there and carry tasks |
| ThreadPool.Delivery | src/thp/thp/thp_task.c:142-204 | a client's task is carried by the first recycled package, or a new one, to the end of the queue |
| ThreadPool.AfterPop | src/thp/thp/thp_thread.c:145-157 | in every run, after a pop the worker calls the real worker with the task that was first in the queue, or with none |
| ThreadPool.AfterWork | src/thp/thp/thp_thread.c:159-177 | in every run, the step after the call pushes a refused task again at the end, recollects the package of any other, or pops when there was none; a terminated worker makes no step |
| ThreadPool.PackagesConserved | src/thp/thp/thp_task.c:142-302 | in every run each package is in exactly one of the queue, the recycled list, one worker's or one client's hands, and `task_count` is the queue's length |
| ThreadPool.OneResultPerTask | src/thp/thp/thp_thread.c:145-177 | in every run each delivered task has had exactly one result that does not refuse it, or its package is on the way to one; never both, never twice |
| ThreadPool.FirstInFirstOut | src/thp/thp/thp_thread.c:162-167 | tasks leave the queue in the order in which they entered, and a refused one enters again at the tail |
| ServerPath.PacketPool.constructor | src/easenet/easenet/enet_packet.c:46-95 | all units are free, once each |
| ServerPath.PacketPool.Alloc | src/easenet/easenet/enet_packet.c:97-116 | the last free unit is taken and flagged; null exactly when none is free |
| ServerPath.PacketPool.Return | src/easenet/easenet/enet_packet.c:118-147 | a unit that is out is free again and its flag clear, the list never overflows, and null is ignored |
| ServerPath.MoveInv | src/easenet/easenet/tcp_server.c:580-619 | every step of workers and handler keeps each unit in one place |
| ServerPath.UnitsConserved | src/easenet/easenet/tcp_server.c:580-619 | in every run each unit is in exactly one of the free list, a worker's hands, a pending event or the handler, the free list has no duplicates and agrees with the flags, and pending data events never exceed the pool |
| ServerPath.UnitForSocket | src/easenet/easenet/tcp_server.c:589-597 | a worker with a socket to serve waits for a unit and takes the last free one |
| ServerPath.AfterReceive | src/easenet/easenet/tcp_server.c:599-617 | in every run, after a receive of bytes the worker's next step posts that unit's data event with the number of bytes unless the ring is full; after an error or the end of the connection it posts the loss, if there is room |
| ServerPath.AfterPost | src/easenet/easenet/tcp_server.c:602-616 | in every run, a unit whose data were not posted is given back by the worker's next step |
| ServerPath.BeforePost | src/easenet/easenet/tcp_server.c:599-613 | in every run, a unit about to be posted was filled by its worker's last receive, with as many bytes as its size says |
| ServerPath.DataEventPosted | src/easenet/easenet/tcp_server.c:611-614 | only the posting of a filled unit brings a data event into the ring |
| ServerPath.DataInOrder | src/easenet/easenet/enet_event.c:126-134 | in every run, the data posted are those the handler has processed, in order and with their sizes, followed by those on the way |
| ServerPath.OneEvent | src/easenet/easenet/enet_event.c:112-161 | the handler takes the oldest event and frees a unit with data when it has processed it |
| EventRing.Ring.Post | src/easenet/easenet/enet_event.c:209-243 | an event is appended unless the ring is full or the event invalid; the tail stays put on an empty ring |
| EventRing.Ring.Pop | src/easenet/easenet/enet_event.c:46-87 | the oldest event is handed out; the head stays put on the last one, so head and tail agree whenever at most one event waits |
| EventRing.Ring.constructor | src/event_engine/event_engine/event_engine.c:246-301 | an empty ring |
| EventRing.FirstInFirstOut | src/event_engine/event_engine/event_engine.c:127-175 | over every series of posts and pops the accepted events come out once, in order, and never more than the size wait |
| EventRing.Play | src/easenet/easenet/enet_event.c:46-243 | any series of posts and pops on a ring: what is handed out and what is left are what waited before and the accepted events, in order |
| TimerList.Timers.Insert | src/event_engine/event_engine/event_engine.c:84-97 | the timer is linked in behind the first one, and the list stays one cycle in both directions |
| TimerList.Timers.Delete | src/event_engine/event_engine/event_engine.c:99-118 | the timer is linked out, the first one moves on when it was the first, and the sweep goes on from the one before |
| TimerList.Timers.Examine | src/event_engine/event_engine/event_engine.c:196-206 | a due timer is reset or deleted as its callback says, another is left alone |
| TimerList.Timers.Advance | src/event_engine/event_engine/event_engine.c:207-215 | the cursor goes to the next timer, and the round ends after 20 timers or at the first one, with the cursor as the new first |
| TimerList.Timers.Sweep | src/event_engine/event_engine/event_engine.c:185-219 | a sweep examines at most 20 pairwise different timers from the first one on, deletes exactly the due ones not reset, gives reset ones their new time and leaves the others theirs, and the first timer not examined is the next first; it examines all there are, up to 20, if and only if the first is alone, not due, or reset |
| TimerList.Rotated | src/event_engine/event_engine/event_engine.c:209-214 | moving the first timer along the cycle keeps it a cycle of the same timers |
| TimerList.SecondWaits | src/event_engine/event_engine/event_engine.c:185-219 | of two due timers, neither reset, a sweep examines one |
| TimerList.ExaminedInTime | src/event_engine/event_engine/event_engine.c:193-216 | the timer at position p is examined within p + 1 sweeps, and one more for every timer started meanwhile |
| TimerList.AllExamined | src/event_engine/event_engine/event_engine.c:193-216 | every one of n timers is examined within n sweeps, and one more for every timer started meanwhile |
| TimerList.Play | src/event_engine/event_engine/event_engine.c:178-322 | any series of starts and sweeps on a timer list gives such a history, so each of its n timers is examined within n sweeps and one more for every start |
| Framing.Pack | src/easenet/easenet/enet_packet.c:149-177 | head, payload and tail, or an abort when the output is too small; the words written are the magic number, the length, each with its complement, the magic number's halves exchanged, and the check word that makes the exclusive or 0 |
| Framing.WordsOfFrame | src/easenet/easenet/enet_packet.c:159-165 | the same of every frame, word by word |
| Framing.OneByteFrame | src/easenet/easenet/enet_packet.c:149-177 | the frame of a byte, byte by byte |
| Words.Complements | src/easenet/easenet/enet_packet.c:35-37 | two words are complements if and only if their exclusive or is all ones |
| Framing.HeadRoundTrip | src/easenet/easenet/enet_packet.c:31-44 | a packed head is accepted and tells the payload's length |
| Framing.Unpack | src/easenet/easenet/enet_packet.c:184-292 | for every input that fits the buffer the call returns the code, the payload and the held-back bytes that the specification of a piece gives |
| Framing.UnpackFirst | src/easenet/easenet/enet_packet.c:202-232 | nothing held back: the piece is kept, refused, or a frame is taken out of it |
| Framing.UnpackLater | src/easenet/easenet/enet_packet.c:233-289 | bytes held back: the piece is appended, or the frame is put together from buffer and input |
| Framing.Gather | src/easenet/easenet/enet_packet.c:234-245 | completing a split head with 16 bytes leaves the stream spread over buffer and input, with the input count wrapped around when it was shorter |
| Framing.Finish | src/easenet/easenet/enet_packet.c:269-287 | the signed counts pick exactly the payload and the rest out of buffer and input |
| Framing.PieceOfFrame | src/easenet/easenet/enet_packet.c:202-289 | a piece of a frame is held back, completes the frame with nothing left, or is a short one and fails |
| Framing.Reassembly | src/easenet/easenet/enet_packet.c:184-292 | for every payload that fits and every cut of its frame, the payload comes out after the last piece with the buffer empty if and only if no piece is short |
| Framing.NothingEarly | src/easenet/easenet/enet_packet.c:184-292 | before the last piece no payload comes out, and without short pieces all bytes so far are held back |
| Framing.ShortPieceFails | src/easenet/easenet/enet_packet.c:234-245 | the frame of one byte in pieces of 10, 7 and 8 bytes is lost |
| Framing.StreamOfFrames | src/easenet/easenet/enet_packet.c:184-292 | a sequence of frames, each ending with a piece, is recovered in order if and only if no piece is short |
| Framing.Coalesced | src/easenet/easenet/enet_packet.c:202-289 | for all held and new bytes that are a frame and more behind it: the rest is kept as it is if and only if something, and no more than the frame, was held back; with nothing held back the tail is kept with it, with more than the frame the call fails |
| Framing.SecondFrameLost | src/easenet/easenet/enet_packet.c:269-281 | two frames and a byte in two pieces: the first frame comes out, and the next piece, whatever it is, fails |
| Framing.CorruptHead | src/easenet/easenet/enet_packet.c:31-44 | a head is reported as corrupt if and only if it comes whole with nothing held back and its first word is not the magic number, or the exclusive or of the first or the last two words is not all ones |

## Left out

- TwoThreeTree.Tree23.Insert: keys differ from the value that marks a missing right key; the code does not reject that value, but a 2-node that takes it in stays a 2-node (`TwoThreeInsert.TakeIn`).
- RbTree.RbTree.Remove: the data pointer is always returned; passing no place for it is not modelled.
- Sha1.Context.Process: chunks are shorter than 2^31 bytes, because the copy takes a signed length; the bit counter is kept as two integers below 2^32.
- Md5.Context.Update: chunks are shorter than 2^31 bytes, for the same reason.
- ThreadPool.OneResultPerTask: locks are acquired, a worker refuses only a task it was given, and a worker that returns as terminated keeps its package.
- ServerPath.UnitsConserved: covers the server; the client's receive path does not give units back on failure. The debug build's assertion on unit 0 in the return of a unit is not modelled.
- EventRing.Ring.Pop: one round of the waiting loop; sleeping and termination are not modelled.
- TimerList.Timers.Sweep: a callback does not start or delete timers, and the null callback the constructor refuses does not occur.
- Framing.Unpack: the buffer has room for what is held back and the piece, and, when the piece completes a split head, input and buffer have room for the 16 bytes copied then; sizes are below 2^30; a copy outside its arrays is reported instead of being carried out.
- The XOR swaps and the computation of the level's address from the root's are plain swaps and field accesses; the address of the tree in a root's parent link is a null link.
- Unused and empty functions of the 2-3 tree, its disabled subtree check, and the deletion of whole trees.
- The main-control lock, the second copies of the read/write lock, handle registries, logging, HTTP helpers, configuration parsing, module loading and string utilities.
- Sockets, select, accept and connect, UDP, name lookup, and thread creation, suspension and shutdown: operating-system calls whose results are parameters or arbitrary steps.
