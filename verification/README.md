# A Dafny model of the database engine

The repository is an embedded SQL database: a B+tree over 4 KB pages, tables and secondary indexes in such trees, a
planner that turns WHERE clauses into seeks, pull operators, transactions with a change feed, row-level security, and
three small state machines of its HTTP front end.  This project models that code and proves what it keeps, for every
input, every run and every reachable state.  `dafny verify dfyconfig.toml` checks it.

## How it is laid out

| files | what they model |
|---|---|
| Bytes, Pager | byte strings and their order; pages, the free list, page sizes |
| Shape, Contexts, Contents, Steps, Sizes, Focus, Pairs | the tree that a set of pages spells out, trees with a hole, and what one local edit does to a whole tree |
| NodeEdits, DescendSteps, InsertSteps, DeleteSteps, PairPages, ScanSteps, CheckSteps | what the lines of the tree code do to pages, and what its check of a tree stands for |
| BTree, Cursor, Forest, Runs, Limits | the B+tree as a class over the pager, its scans, several trees in one store, whole runs, and where page fit ends |
| SlottedPage, Catalog | nodes as bytes; dropping a tree; the catalog's records |
| Values, Rows, Tables, Indexes | values and key encodings, rows as bytes, writes to a table and its indexes and how they stay in agreement, CREATE TABLE and CREATE INDEX |
| Exprs, Streams, Operators, Mistyped, Listings, Planner, TableRefs | expressions, what operators yield, the operators as classes, literals of another type than their column, what scans and seeks find, the planner, joins of any shape |
| Rls, Statements, Engine, Aggregates | policies, statements, transactions and the feed, grouping |
| Tokens, RateLimit, WebSocket | refresh tokens, the rate limiter, WebSocket frames |

A tree is known through a ghost witness, `Shape.Tree`: `Contents.Stored` says that the pages hold it, that keys are in
order within their separators, that all leaves are equally deep and chained from left to right, that no page occurs
twice, and that nodes are filled.  A `Shape.Discipline` says what callers have put in so far: anything, keys of at most
2034 bytes, entries of at most 167 bytes, or keys and payloads of fixed widths with three entries to a leaf page and
four to an internal one.  The same proofs serve all four; what grows is how full nodes are known to be, for small
entries that no insertion ever lacks room, and under fixed widths that no write does.  A tree that takes an entry of
other widths goes on under a weaker discipline.

Operators are known through the stream they have yet to yield, `Streams.Stream`: rows, and then the end or an error.
A plan is right when its stream is.

Writes to a table are stated twice: what they do to the trees, for any values at all (`Tables.PutIn`,
`Tables.TakenFrom`), and that table and indexes stay in agreement when the values have the types of their columns
(`Tables.InsertAgrees` and its companions).  JSON values hold no zero byte: the parser that every JSON literal passes
rejects it (src/engine.rs:2080-2087).

Runs are stated over functions or relations of the script: the answers of a run are those of `Tokens.AnswerTo`,
`RateLimits.AnswerTo` and `Engines.StepOk` in the state before each step, and the safety theorems are about these.

## What the code does not do

Found while proving.  For each there is a lemma or a clause that says exactly when the code is right.

- An internal node is split by its number of separators; with two long ones the right part is left without any, with
  three never (`Limits.SplitLeavesSome`, `Limits.SplitLeavesNone`).  Leaves halved by number can overflow
  (`Limits.HalfOverflows`), and never do exactly when entries take at most 167 bytes (`Limits.HalvesFitExactly`); then
  insertion always finds room (`Limits.SmallLeafSplits`).  The page store reports `PageOverflow`, where the code would
  run past the page, and for no other reason: what does not fit is named by `InsertSteps.NoRoomFor` and
  `DeleteSteps.NoRepair`.
- The tree check overlooks separators out of order around an empty leaf (`CheckSteps.GapHides`).  It can be trusted
  with a tree, whatever one separator beside an empty leaf may be, exactly when no leaf between two separators is empty
  (`CheckSteps.TrustedExactly`), and then it accepts exactly the trees in order (`CheckSteps.PassesInOrder`,
  `CheckSteps.InOrderPasses`).
- Nothing stops a table from having two columns of one name, and then a seek by primary key and the clause may look at
  different columns: never exactly when `Planner.SeekSound` holds of the schema (`Planner.SeeksRightExactly`,
  `Planner.SeekUnsoundWrong`).
- A seek compares encodings and not types: `id = 'abcdefg'` on an INTEGER key can find a row, on which the clause itself
  would panic.  A seek finds only rows of which its equality is true exactly when the literal is taken for no other
  value, which is a matter of its bytes (`Planner.KeySeekExactly`, `Planner.IndexSeekExactly`,
  `Mistyped.ClashesExactly`, `Mistyped.StraysExactly`); a literal of the column's type never is.  Then a plan finds
  exactly the rows of the clause and fails where it does (`Planner.FoundExactly`).
- A clause is asked only of the rows that are read, so one that fails on others may succeed; and the rest of a clause
  fails with the error of the clause (`Planner.TakenOutcome`).
- INSERT and UPDATE do not check that values have the types of their columns; a row is read back exactly when they do
  (`Rows.RoundTripExactly`).
- An UPDATE whose new row is refused has already deleted the old one (`Tables.UpdateRow`); outside a transaction the
  rollback of the statement brings it back (`Engines.Engine.Execute`), inside one only ROLLBACK does
  (`Engines.RolledBackSilent`).
- COMMIT after a failed statement keeps what the statement had done, and publishes the events of the rows it had
  written.  Unless it lacked room, when nothing is said of the pages, they account for what it has left exactly when it
  was not an UPDATE that was refused a row (`Engines.CommittedAfterStop`, `Engines.RefusedUpdate`).
- CREATE TABLE and CREATE INDEX look at the name last, after pages were taken (`Indexes.CreateTable`,
  `Indexes.CreateIndex`); the rollback of the statement gives them back.
- Without a listener the events of a transaction stay pending after COMMIT (`Engines.Engine.Commit`); the next BEGIN
  drops them.
- RIGHT JOIN yields what INNER JOIN yields (`Streams.RightIsInner`), which is the RIGHT join exactly when every right
  row has a match (`Streams.RightExactly`).
- HAVING is evaluated on the row of a group by the columns of the input: a column of the key is read rightly exactly
  when it has the same place in both (`Aggregates.HavingAligned`, `Aggregates.HavingMisread`), and comparing an
  aggregate fails (`Aggregates.HavingAggregate`).
- A replayed refresh token that has expired is reported as expired and does not revoke its family; one in time always
  does (`Tokens.RefreshSessionStore.RotateToken`, `Tokens.NoDeadFamily`).
- While the clock reads zero, which is also what it reads when it is before the epoch, the rate limiter lets everything
  through (`RateLimits.ClockAtZero`); past zero it never lets a flood through (`RateLimits.NoFlood`).
- A ping is answered by a well-formed pong exactly when its payload is shorter than 126 bytes (`WebSockets.PongReads`).

## Model

| member | source | states |
|---|---|---|
| `BTrees.BTree.constructor` | src/btree/tree.rs:12-14 | a page that holds the root of a well-formed tree opens as that tree |
| `BTrees.BTree.Descend` | src/btree/tree.rs:20-40 | the leaf reached is the one whose bounds hold the key, and the stack is the way to it, root first, as long as the tree is high |
| `BTrees.BTree.Search` | src/btree/tree.rs:42-51 | the payload of the key if the tree, as a map, has it, and nothing otherwise |
| `BTrees.BTree.Insert` | src/btree/tree.rs:53-106 | too large, duplicate, or the map with the key added: DuplicateKey exactly when the key is there and then nothing changes; on success order, bounds, depth, leaf chain, fill and footprint hold again and only fresh pages were taken; it fails for want of room only when the leaf does not fit its page with the entry and cannot be split either, because a half of it does not fit, or the separator finds no room above; with entries of at most 167 bytes, and under fixed widths, never |
| `BTrees.BTree.WriteLeafNode` | src/btree/tree.rs:79-84 | a leaf that fits is rewritten in place: the map gains the entry, the page set stays |
| `BTrees.BTree.SplitLeafNode` | src/btree/tree.rs:86-105 | a leaf cut in two, whatever cascade follows: the contents are those of before with the new entry list in place of the leaf, and the invariants hold; it fails exactly when a half does not fit its page or the separator finds no room above |
| `BTrees.BTree.InsertIntoParent` | src/btree/tree.rs:108-162 | a separator and a new right sibling go into the parent, or into a split parent, or into a new root: contents unchanged, invariants restored, height and root right; it fails exactly when the new root does not fit, or the parent does not and cannot be split |
| `BTrees.BTree.SplitInternal` | src/btree/tree.rs:164-193 | an internal node past its page is cut around the separator that moves up; nothing is lost and the invariants hold whatever happens above; it fails exactly when a part does not fit or that separator finds no room above |
| `BTrees.BTree.Delete` | src/btree/tree.rs:294-310 | the map without the key, and true exactly when the key was there; order, separator bounds, equal depth, chain and fill survive every borrow, merge and collapse; no page is taken, pages given back were the tree's, and only an old root stays behind; it fails for want of room only when the leaf is left with too few entries and a page that its borrow or merge writes, or one further up, does not fit, and never under fixed widths |
| `BTrees.BTree.FindSiblings` | src/btree/tree.rs:312-340 | the pages left and right of the child in its parent, or none at the ends |
| `BTrees.BTree.UpdateSeparator` | src/btree/tree.rs:342-358 | exactly the separator right of the child is replaced, or the page would overflow |
| `BTrees.BTree.RebalanceLeaf` | src/btree/tree.rs:360-387 | an underfull leaf is repaired through a sibling: same entries, invariants restored up to the root; it fails exactly when what the sibling it turns to calls for does not fit |
| `BTrees.BTree.BorrowFromRightLeaf` | src/btree/tree.rs:389-403 | one entry moves over and the separator follows it; entries and pages are the same as before; it fails exactly when a leaf or the parent with the new separator does not fit |
| `BTrees.BTree.BorrowFromLeftLeaf` | src/btree/tree.rs:405-419 | the mirror image |
| `BTrees.BTree.MergeLeaves` | src/btree/tree.rs:421-456 | two leaves become one, the chain skips the freed page, the parent loses one separator and is repaired in turn; it fails exactly when the merged leaf does not fit or the repair of the parent fails |
| `BTrees.BTree.RebalanceInternal` | src/btree/tree.rs:458-492 | an underfull internal node is repaired through a sibling, and a root without separators gives way to its only child; it fails exactly when what the sibling it turns to calls for does not fit |
| `BTrees.BTree.BorrowFromRightInternal` | src/btree/tree.rs:494-523 | a child moves over, separators rotate through the parent; entries and order are kept |
| `BTrees.BTree.BorrowFromLeftInternal` | src/btree/tree.rs:525-559 | the mirror image |
| `BTrees.BTree.MergeInternal` | src/btree/tree.rs:561-602 | two internal nodes and the separator between them become one node, one page is freed; it fails exactly when the merged node does not fit or the repair of the parent fails |
| `BTrees.BTree.CursorStart` | src/btree/tree.rs:195-224 | a cursor over all entries in order |
| `BTrees.BTree.CursorSeek` | src/btree/tree.rs:226-236 | a cursor over the entries from the first one not below the key |
| `BTrees.BTree.CheckInvariants` | src/btree/tree.rs:238-240 | on any pages that spell a tree: a check that succeeds means keys in order, bounds and equal depth, if no leaf between two separators is empty; one that fails means that the tree is not in order; and every tree that insertion and deletion build passes, with its height |
| `BTrees.BTree.CheckNode` | src/btree/tree.rs:242-290 | succeeds with a depth only on what the check stands for, and fails on everything else, whatever the pages hold |
| `BTrees.BTree.CheckLeaf` | src/btree/tree.rs:246-265 | true exactly when keys ascend and stay within the bounds |
| `CheckSteps.PassesInOrder` | src/btree/tree.rs:242-290 | what passes the recursive check and has no empty leaf between two separators is in order everywhere, although the check never compares separators with one another |
| `CheckSteps.InOrderPasses` | src/btree/tree.rs:242-290 | what is in order passes |
| `CheckSteps.GapHides` | src/btree/tree.rs:246-265 | any other tree that passes is out of order, or is so once one separator beside an empty leaf has changed, and passes all the same |
| `CheckSteps.TrustedExactly` | src/btree/tree.rs:242-290 | so the check can be trusted with a tree, whatever one separator beside an empty leaf may be, exactly when no leaf between two separators is empty |
| `CheckSteps.OrderedInOrder` | src/btree/tree.rs:242-290 | the invariants of the model imply the order that the check looks for |
| `Contexts.GraftOrdered` | src/btree/tree.rs:242-290 | a whole tree passes the order and depth check exactly when what is around a hole and what is put into it do: the step from local edits to the tree |
| `Contexts.PlugContents` | src/btree/tree.rs:20-40 | entries, leaves and pages of a tree are those before, in and after the hole |
| `Contents.OnlyInHole` | src/btree/tree.rs:20-40 | a key within the bounds of a subtree can be nowhere else in the tree, so one descent decides |
| `Contents.MapPut` | src/btree/tree.rs:72-78 | adding or removing an entry whose key occurs nowhere else adds or removes it in the map |
| `Focus.SplitLeaf` | src/btree/tree.rs:86-105 | two halves, chained through the new page, satisfy every invariant but that the parent does not know of the second |
| `Focus.SplitBranch` | src/btree/tree.rs:171-192 | the same one level up; the separator that moves up bounds both halves |
| `Focus.NewRoot` | src/btree/tree.rs:117-127 | a new root over two halves is a well-formed tree of one level more |
| `Focus.AbsorbSplit` | src/btree/tree.rs:129-155 | a parent with room takes the second half, and the tree is whole again |
| `Pairs.LeavesRecut` | src/btree/tree.rs:389-419 | two neighbouring leaves cut anew, with the separator set to the first key of the right one, leave the tree whole |
| `Pairs.BranchesRecut` | src/btree/tree.rs:494-559 | the same for internal nodes, the old separator going down and a new one coming up |
| `Pairs.LeavesMerged` | src/btree/tree.rs:421-456 | a merged leaf satisfies every invariant, given the shorter parent |
| `Pairs.BranchesMerged` | src/btree/tree.rs:561-602 | a merged internal node satisfies every invariant, given the shorter parent |
| `DeleteSteps.CollapseRoot` | src/btree/tree.rs:459-466 | when the root has no separator left its only child is a well-formed tree of one level less, and the old root is the one page left behind |
| `Sizes.OverflowEnough` | src/btree/tree.rs:171-175 | an internal node that overflows its page has separators enough for two nodes and one to move up, for keys of at most 2034 bytes and for fixed widths |
| `Forest.OthersUntouched` | src/btree/tree.rs:90 | a write to one tree leaves every tree with other pages readable, unchanged, and still apart |
| `Forest.FreedWereOurs` | src/btree/tree.rs:433 | a page given back was a page of the tree that was written and belongs to no tree afterwards |
| `Forest.MinimumKept` | src/btree/tree.rs:292 | every page below the root holds the minimum number of entries |
| `Runs.RunOps` | src/btree/tree.rs:890-922 | any sequence of insertions and deletions, entries too large for a page and keys of any length among them, leaves the tree equal to the same sequence applied to a map, all invariants included; it is cut short only by an operation for which the tree has no room, with entries of at most 167 bytes by no insertion, and with fixed widths never |
| `Runs.ScanAll` | src/btree/tree.rs:195-224 | draining a scan yields every entry once in strictly increasing key order |
| `Runs.ScanFromKey` | src/btree/tree.rs:226-236 | draining a seek yields exactly the entries whose keys are not below the key |
| `Runs.SeekModel` | src/btree/cursor.rs:96-115 | also when the key is a proper prefix of stored keys |
| `Runs.SizeBound` | src/btree/node.rs:71-78 | with fixed widths every node of a tree fits its page and every node but the root has two entries |
| `Cursors.Cursor.Empty` | src/btree/cursor.rs:13-20 | nothing to yield |
| `Cursors.Cursor.FromLeaf` | src/btree/cursor.rs:46-53 | the rest of one leaf and then the leaves chained to it |
| `Cursors.Cursor.Next` | src/btree/cursor.rs:23-42 | yields the first remaining entry and keeps the others; after the last it yields nothing for good |
| `Cursors.LeavesLinked` | src/btree/cursor.rs:23-42 | following the chain of leaf pages visits the leaves of the tree from left to right and ends |
| `Cursors.ChainAfter` | src/btree/tree.rs:95-98 | what follows any leaf in the chain are the leaves right of it |
| `Limits.SplitLeavesSome` | src/btree/tree.rs:171-192 | the right part of a split internal node keeps a separator exactly when there were three, which keys of at most 2034 bytes guarantee |
| `Limits.SplitLeavesNone` | src/btree/tree.rs:171-192 | with keys one byte longer two separators overflow a page, and the right part is left empty |
| `Limits.HalfOverflows` | src/btree/tree.rs:79-105 | entries that each fit a page alone, halved by their number, can still overflow one |
| `Limits.HalvesFitExactly` | src/btree/tree.rs:79-105 | halves by number always fit exactly when no entry takes more than 167 bytes |
| `Limits.SmallLeafSplits` | src/btree/tree.rs:86-193 | with entries of at most 167 bytes a leaf that the new entry overflows can always be split, and so can every node above it that the separator overflows |
| `Limits.SmallCutFits` | src/btree/tree.rs:171-192 | when a node overflows, since one key of at most 161 bytes came, the parts to both sides of its middle key fit, whatever the lengths of the other keys up to that |
| `Bytes.KeyLess` | src/btree/tree.rs:30-36 | comparison of byte slices is the order of positions on a line, so a proper prefix comes before its extensions |
| `Bytes.KeyLessMeans` | src/btree/tree.rs:30-36 | it is the first byte at which they differ that decides, or else the end of the shorter one |
| `Bytes.RankInjective` | src/btree/tree.rs:42-51 | equal positions mean equal keys |
| `Bytes.PrefixRange` | src/btree/cursor.rs:107-115 | all extensions of a prefix come before every larger key that does not extend it |
| `Storage.Pager.Write` | src/storage/pager.rs:216-229 | the page holds the node, or the node did not fit and nothing changed |
| `Storage.Pager.AllocatePage` | src/storage/pager.rs:231-263 | the page handed out was not live, is not the header page, and no other page changes |
| `Storage.Pager.FreePage` | src/storage/pager.rs:265-284 | exactly this page is no longer live, and it can be handed out again; no page is ever both free and live |
| `Storage.Pager.Restore` | src/storage/pager.rs:112-130 | the store is what it was when the journal was begun |
| `SlottedPages.EncodeLeaf` | src/btree/node.rs:50-69 | header, slots and cells lie where the format says, for every leaf that fits a page |
| `SlottedPages.EncodeInternal` | src/btree/node.rs:101-119 | the same for internal nodes |
| `SlottedPages.DecodeLeaf` | src/btree/node.rs:30-48 | a page in that layout is read as the leaf it was made from |
| `SlottedPages.DecodeInternal` | src/btree/node.rs:82-99 | a page in that layout is read as the internal node it was made from |
| `SlottedPages.WriteThenRead` | src/btree/node.rs:30-119 | decoding what was encoded gives the node back, for every node that fits a page |
| `SlottedPages.LeafStart` | src/btree/node.rs:71-78 | the cells of a leaf end above its slots by exactly the bytes the page has to spare, so the offset never underflows |
| `SlottedPages.InternalStart` | src/btree/node.rs:121-124 | the same for internal nodes |
| `SlottedPages.Disjoint` | src/btree/node.rs:57-66 | slots and cells of a page never overlap |
| `DescendSteps.IntoBounds` | src/btree/tree.rs:20-40 | the child for the key, equal keys going right, is the one whose bounds hold the key |
| `NodeEdits.RouteIndex` | src/btree/node.rs:126-133 | the first separator greater than the key: none before it is, so a key equal to a separator goes right of it |
| `Catalogs.WalkAndFree` | src/catalog.rs:304-321 | frees exactly the pages of the tree, children before parents, and leaves every other page as it was |
| `Catalogs.PostOrderPages` | src/catalog.rs:304-321 | that order has each page of the tree exactly once |
| `Catalogs.DropKeepsOthers` | src/catalog.rs:123-137 | every tree that shares no page with a dropped one is still there, unchanged |
| `Catalogs.ReplaceRecord` | src/catalog.rs:65-82 | deleting and inserting a record again maps its name to the new record and changes no other |
| `Values.EncodeKeyOrder` | src/types/value.rs:62-84 | encodings of values of one type are ordered as bytes just as the values are |
| `Values.EncodeKeyPrefixFree` | src/types/value.rs:62-84 | no encoding is a prefix of the encoding of another value of its type, strings being free of zero bytes |
| `Values.SqlCmpEqual` | src/types/value.rs:94-115 | values compare equal exactly when they are the same |
| `Values.BigEndianOrder` | src/types/value.rs:64-67 | fixed-width big-endian bytes are ordered as the numbers are |
| `Values.CompositePrefix` | src/types/value.rs:86-92 | from a composite key the first column can be read off: an encoding starts it exactly when it is that column's |
| `Values.ZeroEnded` | src/exec/mutate.rs:18-26 | exactly which zero-ended strings begin others: none among strings without a zero byte, which is what the check in insertion is for |
| `Rows.RowRoundTrip` | src/types/row.rs:41-96 | a row is read back as it was written, nulls included |
| `Rows.RoundTripExactly` | src/types/row.rs:4-96 | it is read back exactly when its values have the types of their columns; the writer does not check them |
| `Rows.PrimaryKeyIndex` | src/types/schema.rs:47-52 | the first column that is declared the primary key |
| `Rows.FindColumn` | src/types/schema.rs:54-56 | the first column of that name |
| `Tables.InsertRow` | src/exec/mutate.rs:8-48 | for every row, mistyped ones too: on success every tree gained exactly the entry the row stands for, all of them new, at the roots returned, and other trees are untouched; refused for nulls, zero bytes and a primary key that is taken, with nothing changed; for want of room only if an entry exceeds a page or its leaf cannot be split; with entries of at most 167 bytes or fixed widths nothing else refuses it |
| `Tables.DeleteRow` | src/exec/mutate.rs:50-73 | for every row: every tree lost exactly the key that the row stands for; it fails only when one of the leaves can neither spare the entry nor be repaired, and under fixed widths never |
| `Tables.UpdateRow` | src/exec/mutate.rs:75-102 | for every pair of rows: the old one's entries gave way to the new one's in every tree, also under another primary key; a refused new row has already cost the old one, and nothing else; it lacks room only when one of the trees has none, for giving up the old row or for taking the new one |
| `Tables.InsertAgrees` | src/exec/mutate.rs:8-48 | when table and indexes agreed on some rows, they agree on those and a well-typed row that was inserted, and its key was free |
| `Tables.DeleteAgrees` | src/exec/mutate.rs:50-73 | they agree on the rest after a deletion |
| `Tables.UpdateAgrees` | src/exec/mutate.rs:75-102 | they agree on the rest and the new row after an update, whose key was the old one or free |
| `Tables.NewEverywhere` | src/exec/mutate.rs:30-46 | a row is new to every tree exactly when its primary key is new to the table, so an index never reports a duplicate |
| `Forest.LoosenedStored` | src/exec/mutate.rs:30-46 | a tree kept to some widths is also a tree of any widths, which is how it takes an entry of other widths |
| `Tables.InsertAt` | src/exec/mutate.rs:30-35 | one tree of several gains an entry, the others stay planted where they were |
| `Tables.DeleteAt` | src/exec/mutate.rs:58-61 | one tree of several loses a key, the others stay planted where they were |
| `Tables.CheckRowMeans` | src/exec/mutate.rs:14-27 | a row is refused exactly when a NOT NULL column is null or a text holds a zero byte |
| `Tables.IndexKeyInjective` | src/exec/mutate.rs:41 | two rows have one index key only if they have one primary key |
| `Tables.IndexPut` | src/exec/mutate.rs:36-46 | the key of a new row is new to the index, and with it the index is again exactly the keys of the rows |
| `Tables.IndexDrop` | src/exec/mutate.rs:62-71 | taking out the key of a row leaves exactly the keys of the other rows |
| `Tables.Replant` | src/exec/mutate.rs:30-46 | trees that share no page still share none after one of them was written |
| `Indexes.CreateIndex` | src/engine.rs:975-1022 | scanning the table while filling the new tree gives an index that agrees with the table, under a name no index has; refused for a missing or nullable column; a name that is taken is found out last |
| `Indexes.CreateTable` | src/engine.rs:934-968 | exactly one primary key, which is NOT NULL from then on, a free name, and an empty tree on a fresh page that agrees with no rows |
| `Indexes.Backfill` | src/engine.rs:1001-1012 | the scan is not disturbed by the insertions it alternates with: every row ends up in the index once |
| `Operators.SeqScan.Next` | src/exec/scan.rs:29-40 | yields the rows of the table one by one, in key order |
| `Operators.SeqScan.ScanFrame` | src/exec/scan.rs:29-40 | a scan in progress survives writes to other trees |
| `Operators.TableSeek.Next` | src/exec/scan.rs:61-73 | yields the row with the key once, or nothing |
| `Operators.IndexSeek.Next` | src/exec/scan.rs:95-117 | yields the rows that the entries with the prefix point to, and stops for good at the first entry without it |
| `Operators.Filter.Next` | src/exec/filter.rs:32-47 | yields the next row of which the clause is true, as filtering what its input yields calls for; of a comparison: a row on which both sides have values that stand in the relation |
| `Operators.NestedLoopJoin.Next` | src/exec/join.rs:64-117 | yields the rows of the relational join one by one, left row by left row |
| `Operators.NestedLoopJoin.MaterializeRight` | src/exec/join.rs:48-61 | the right side is read to its end once, before the first row; its error ends the stream |
| `Operators.NestedLoopJoin.NextMatch` | src/exec/join.rs:80-103 | the first right row from the cursor on that matches, if there is one |
| `Operators.Drain` | src/engine.rs:1314-1317 | pulling to the end yields the whole stream and how it ended |
| `Streams.JoinMeans` | src/exec/join.rs:64-117 | a combined row is in the join exactly when its parts match, or, for LEFT, when its left part matches nothing and the rest is null |
| `Streams.JoinEvaluates` | src/exec/join.rs:64-117 | when a join ends well, a left and a right row are in it side by side exactly if there is no condition or it evaluates to true on them; its other errors count as no match, and it panicked on no pair |
| `Streams.JoinConcat` | src/exec/join.rs:64-117 | joining one list of left rows after another is one join after another |
| `Streams.LeftCount` | src/exec/join.rs:106-112 | a LEFT join has the rows of the INNER join and one for each left row without a match |
| `Streams.RightIsInner` | src/exec/join.rs:64-117 | RIGHT, which the operator does not know, gives what INNER gives |
| `Streams.RightExactly` | src/exec/join.rs:64-117 | so it yields the RIGHT join exactly when every right row has a match |
| `Streams.FilterSelects` | src/exec/filter.rs:32-47 | without errors, filtering a stream is selecting from its rows |
| `Streams.OneListing` | src/exec/scan.rs:29-117 | a set of keys can be listed in order in one way only, so scans and seeks agree on the order |
| `Listings.KeysListed` | src/exec/scan.rs:29-40 | a scan meets every row once, in increasing key order |
| `Listings.ScanYields` | src/exec/scan.rs:29-40 | what a scan decodes are the rows of the table |
| `Listings.IndexSeekYields` | src/exec/scan.rs:95-117 | for every literal, also one with a zero byte, an index seek yields exactly the rows with the value, in primary key order; its look-up in the table misses none of them |
| `Listings.TableSeekYields` | src/exec/scan.rs:61-73 | a table seek yields exactly the rows with that primary key |
| `Listings.SeekMatches` | src/exec/scan.rs:102-112 | exactly which index entries the prefix of a string literal begins, literals with zero bytes included |
| `Listings.StrayEntry` | src/exec/scan.rs:102-112 | an entry that a literal with a zero byte begins and that belongs to a row with another value leads to no row: what is left of its key is no primary key of the table |
| `Listings.IndexSeekFromTable` | src/exec/scan.rs:95-117 | whatever the prefix, an index seek finds the rows whose primary keys follow it in the index, each once, in key order, and no others |
| `Listings.FollowsMeans` | src/exec/scan.rs:102-112 | the primary keys that follow a literal are those of the rows that have it, for every literal that does not stray, of another type than the column or not, with zero bytes or without |
| `Mistyped.ClashesExactly` | src/types/value.rs:62-84 | exactly which literals have the key encoding of another value, of the type of a column: a text of seven bytes that of an INTEGER, an empty text and FALSE one another's, a text that of the JSON with the same bytes, a number that of a string if its only zero byte is the last |
| `Mistyped.StraysExactly` | src/types/value.rs:62-92 | exactly which literals begin the index key of a row with another value so that what is left is a primary key |
| `TableRefs.BuildTableRefPlan` | src/plan/planner.rs:84-144 | a tree of joins over scans yields what the FROM clause means: all rows of its tables, joined from the inside out |
| `Exprs.AndMeans` | src/plan/expr.rs:388-391 | AND evaluates when both sides do, whatever the first gives, and holds when both hold |
| `Exprs.OrMeans` | src/plan/expr.rs:388-392 | OR evaluates when both sides do, and holds when one holds |
| `Exprs.NullComparesFalse` | src/plan/expr.rs:393-396 | every comparison with NULL is false, not unknown |
| `Exprs.ComparisonMeans` | src/plan/expr.rs:388-408 | of two values a comparison is false if one is NULL, a panic if their types differ, and otherwise the relation that its operator names: of numbers as numbers, of strings byte by byte, false before true |
| `Exprs.InMeans` | src/plan/expr.rs:54-73 | IN passes an error or NULL to the left on; otherwise the first item that fails or is equal decides, and without one it is false; NOT IN turns truth around |
| `Exprs.NullTestMeans` | src/plan/expr.rs:22-48 | IS NULL and IS NOT NULL tell whether there is a value and are never NULL themselves; auth.uid() is the caller or NULL |
| `Exprs.ColumnMeans` | src/plan/expr.rs:26-31 | a column is read at the first place that has its name |
| `Planner.SplitAndConjuncts` | src/plan/planner.rs:189-201 | the operands of the ANDs at the top, from left to right, behind what was already collected |
| `Planner.RebuildAnd` | src/plan/planner.rs:203-216 | the conjunction of the list, or nothing of an empty one |
| `Planner.SplitRebuilt` | src/plan/planner.rs:189-216 | splitting undoes rebuilding |
| `Planner.ConjunctsMean` | src/plan/planner.rs:189-201 | a clause evaluates and holds exactly when all its conjuncts do |
| `Planner.ConjoinedMeans` | src/plan/planner.rs:203-216 | a rebuilt clause evaluates and holds exactly when all its parts do |
| `Planner.ExtractPkEquality` | src/plan/planner.rs:239-276 | the first equality of the key with a literal is taken out, exactly when there is one and no OR anywhere, and the rest is kept in order; a clause with an OR is left alone |
| `Planner.FindIndexEquality` | src/plan/planner.rs:146-187 | the same for the first equality on an indexed column |
| `Planner.LiteralValue` | src/plan/planner.rs:226-233 | a literal has this value whatever the row, and it is never NULL |
| `Planner.ExtractedMeans` | src/plan/planner.rs:239-276 | on every row where the clause evaluates, it holds exactly when the row has the value and the residual holds |
| `Planner.SeekThenFilter` | src/plan/planner.rs:46-69 | filtering the rows that have the value by the residual gives the rows the whole clause lets through, in the same order |
| `Planner.ScanThenFilter` | src/plan/planner.rs:60-69 | regrouping the ANDs changes nothing |
| `Planner.ChooseAccess` | src/plan/planner.rs:40-62 | whichever of the three ways is chosen, what it reads and the residual are those that the clause calls for; they amount to the whole clause, for every clause that evaluates on the rows, if the schema is one whose seeks are right or the clause asks for no seek by primary key |
| `Planner.BuildSelectPlan` | src/plan/planner.rs:31-82 | for every clause, also one that fails: the plan yields, in key order, the rows that the access comes upon, filtered by the rest of the clause, up to the first on which that fails; and it yields what scanning everything and filtering by the whole clause would, when the clause evaluates on all rows and the schema is one whose seeks are right |
| `Planner.FoundExactly` | src/plan/planner.rs:31-82 | where the literal that a seek looks for is taken for no other value, a plan for any clause finds exactly the rows of which the clause is true, and fails exactly on the rows it reads on which the clause fails, with the same error, although it asks only the rest of the clause of them |
| `Planner.TakenOutcome` | src/plan/planner.rs:239-276 | a conjunct that is true of a row may be left out: what remains fails with the same error or is as true as the whole clause |
| `Planner.ConjunctsFail` | src/plan/planner.rs:189-201 | a clause fails with the error of the first of its conjuncts that fails |
| `Planner.YieldsMeans` | src/plan/planner.rs:31-82 | what a plan yields without an error are all the rows found, and its error is that of the first row read on which the rest of the clause fails |
| `Planner.SeeksRightExactly` | src/plan/planner.rs:40-62 | seeks by primary key are right on every table and clause exactly when the key is the first column of its name, or that one is JSON and NOT NULL, where no equality evaluates |
| `Planner.SeekUnsoundWrong` | src/plan/planner.rs:40-62 | for every other schema a table of one row and a clause on which seek and clause differ |
| `Planner.SeekSoundRight` | src/plan/planner.rs:40-62 | with such a schema a seek and its residual find what the clause lets through, on every table |
| `Planner.KeySeekExactly` | src/plan/planner.rs:40-49 | a seek for an equality on the primary key finds only rows of which it is true, in every table, exactly when the literal is the encoding of no other value of the column; otherwise there is a table of one row that it finds and on which the equality panics |
| `Planner.IndexSeekExactly` | src/plan/planner.rs:51-58 | the same for an equality on an indexed column, with a table of two rows |
| `RowSecurity.ApplyRlsFilter` | src/engine.rs:399-455 | the policies for the command are put into the clause as their rules say |
| `RowSecurity.CombinedMeans` | src/engine.rs:429-442 | the combined clause holds of a row exactly when some USING does; there is none exactly when no policy has one |
| `RowSecurity.SecuredMeans` | src/engine.rs:399-455 | the rewritten clause holds of exactly the rows that satisfy the user's clause and are permitted: none without a policy, those some USING lets through, all when no matching policy has USING |
| `RowSecurity.SecuredSelects` | src/engine.rs:399-455 | selecting by the rewritten clause gives the visible rows in their order |
| `RowSecurity.SecuredPlan` | src/engine.rs:1424-1434 | the plan for the rewritten clause yields the visible rows, whatever seek or scan it uses |
| `RowSecurity.PermittedMeans` | src/engine.rs:399-455 | whom a row is for, by the policies alone: everyone without security, administrators, those of whom some USING of a policy for the command evaluates to true, and those with such a policy while none of them has USING |
| `RowSecurity.SecuredPasses` | src/engine.rs:399-455 | a row of which the rewritten clause is true satisfies the user's clause and is permitted, whatever the clauses do on other rows |
| `Statements.ExecuteInsert` | src/engine.rs:1100-1265 | all rows go in and one event per row, in order, replays to the new table; under security every row was let in by the WITH CHECK of some policy for INSERT, or by its USING if it has none, or by one that has neither, and without such a policy nothing goes in; well-typed rows had an unused key and leave table and indexes in agreement; otherwise the rows before the first that could not go in are in, with an event each, and the error is the one of that row; for want of room only if a tree that holds them had none for that row, and with entries of at most 167 bytes or fixed widths never |
| `Statements.ExecuteUpdate` | src/engine.rs:1267-1395 | exactly the rows that the plan for the clause finds are replaced by their assignments evaluated on the old row, and these are the rows of the clause wherever seeks find no other; the others stay, the count is theirs, one event each in key order, whose replay gives the new table, although roots move with every row; a clause that fails on a row that is read stops it with that error before anything is written; otherwise the rows before the first that could not be updated are, with an event each, the error is the one of that row, and the row itself is gone if the new one was refused |
| `Statements.ExecuteDelete` | src/engine.rs:1831-1939 | exactly the rows that the plan for the clause finds go, and these are the rows of the clause wherever seeks find no other; the count is theirs, one event each in key order, whose replay gives the new table; a clause that fails on a row that is read stops it with that error and no row touched; else it fails only when a tree cannot give up a row, with the rows before gone, and under fixed widths not at all |
| `Statements.SelectRows` | src/engine.rs:1306-1317 | all rows are read before the first is written: those that the plan finds, or, when the rest of the clause fails on one, those before it and the error of that one |
| `Statements.FindsClause` | src/engine.rs:1306-1317 | wherever seeks find no other rows, the rows found are those of the clause, whether or not it would fail on rows that are not read, and the error is its own on the first row read that it fails on |
| `Statements.FoundPass` | src/engine.rs:1306-1317 | then every row that is read satisfies the clause, also when the plan fails in the end |
| `Statements.ResolveAssignments` | src/engine.rs:1294-1303 | targets are columns of the table and never the primary key; otherwise the first offending name is reported, all before it being fine |
| `Statements.AssignMeans` | src/engine.rs:1328-1333 | assignments are simultaneous: each column gets the value, on the old row, of the last assignment to it |
| `Statements.KeyKept` | src/engine.rs:1299-1301 | an update never changes a primary key |
| `Statements.JudgeMeans` | src/engine.rs:1183-1205 | a row is let in only if some policy's check holds, and kept out only if none does |
| `Statements.SelectedExactly` | src/engine.rs:1306-1317 | the rows a plan yields are those of the selected keys, each once |
| `Statements.UpdateOne` | src/engine.rs:1328-1367 | one row under its old key, with the assigned values, in table and indexes; or the error that its assignments or the new row give, and what is left in that case |
| `Statements.InsertOne` | src/engine.rs:1118-1215 | one row in table and indexes, or the first of these: wrong number of values, a null, an error in a policy, no policy that lets it in, a zero byte, a taken key, no room |
| `Engines.Engine.Begin` | src/engine.rs:311-318 | a second BEGIN is refused and changes nothing; otherwise pages, free list, count and catalog are set aside and no event is pending |
| `Engines.Engine.Commit` | src/engine.rs:319-330 | the state stays, exactly the pending events are published in order, and nothing is pending any more; also after a failed statement, when the rows are no longer promised to be what was published |
| `Engines.Engine.Rollback` | src/engine.rs:331-339 | pages, catalog and rows are those of BEGIN, nothing is published and nothing pending |
| `Engines.Engine.ExecuteMutating` | src/engine.rs:601-674 | the statement has its effect on its table, all other tables keep rows and pages, and the pending events grow by exactly those of the statement; if it fails, the pages hold what it had done by then, the catalog is as before, and the pending events have grown by those of the rows written |
| `Engines.Engine.RunStatement` | src/engine.rs:1267-1287 | policies are put into the clause before the statement runs, so its effect is on permitted rows only, whatever types the values have; it succeeds whenever the trees have room and nothing is there to refuse, and otherwise stops at a row for a reason that is told, for want of room only if there was none |
| `Engines.OnlyPermitted` | src/engine.rs:1267-1287 | an UPDATE or a DELETE changes and reports only rows that satisfy the user's clause and that the policies let the caller touch, also when clauses or policies fail on other rows |
| `Engines.Engine.Execute` | src/engine.rs:371-395 | outside a transaction a statement happens completely and exactly its events are published, or it leaves no trace; inside one nothing is published, the pending events grow by its own, and a failed one leaves the database in order, and usable, if it moved no root, was refused no row of an UPDATE and did not lack room |
| `Engines.StoppedReplays` | src/engine.rs:1319-1375 | the events of a statement that stopped account for the rows it has left exactly when it was not an UPDATE that was refused a row |
| `Engines.CommittedAfterStop` | src/engine.rs:319-330 | so after COMMIT what was ever published replays to what the failed statement left exactly then |
| `Engines.RefusedUpdate` | src/exec/mutate.rs:75-102 | it does not for an UPDATE that sets a NOT NULL column to NULL: the first row of the table is gone, the error is the null, and there is no event |
| `Engines.Engine.Select` | src/engine.rs:1397-1434 | the rows of one table that the caller asked for and may see, in key order; also when the clause or a policy fails on a row, every row it has read by then was asked for and is the caller's to see, and the error is that of the first row read that fails |
| `Engines.Session` | src/engine.rs:305-397 | any script: every reply is the one its action demands in the state before it, a failed statement telling what was wrong with the row at which it stopped; what is published is exactly the events of the committed statements in order, and replaying all of it gives the committed rows |
| `Engines.PublishedIsCommitted` | src/engine.rs:305-397 | in every run, the events published are those of statements outside transactions and of transactions that end with COMMIT, each once and in order |
| `Engines.RolledBackSilent` | src/engine.rs:331-339 | a transaction that ends otherwise leaves catalog, rows and published events exactly as they were before BEGIN, whatever it did |
| `Engines.Act` | src/engine.rs:305-397 | one action takes the engine from state to state as the script demands; a failed statement tells why and at which row, and is answered with ROLLBACK |
| `Engines.WorldStep` | src/engine.rs:1377-1387 | a statement on one table leaves every other table's trees and rows as they were, and all trees apart |
| `Engines.WorldGrows` | src/engine.rs:934-968 | a database with one new, empty table is in order; the empty one is (`Engines.EmptyWorld`) |
| `Engines.FeedIsReplay` | src/engine.rs:1361-1372 | events of one table change that table and no other |
| `Engines.FeedConcat` | src/engine.rs:323-329 | replaying one list of events after another is replaying them joined |
| `Aggregates.FoldMeans` | src/exec/aggregate.rs:35-103 | each accumulator is what its function is for: counts, wrapped sums, sum and count of an average, the least and the greatest value by the SQL order |
| `Aggregates.ResultShows` | src/exec/aggregate.rs:82-103 | what the column of a function shows in the row of a group, by the values of its rows: COUNT their number, SUM the sum of the integers, AVG the quotient of sum and number with the fraction dropped, MIN and MAX a value given that no other is below or above, and NULL for these three exactly when there is none |
| `Aggregates.AverageShows` | src/exec/aggregate.rs:92-98 | in a group of fewer than 2^63 rows the average is that quotient itself: times the number it misses the sum by less than the number, towards zero |
| `Aggregates.GroupsMean` | src/exec/aggregate.rs:141-178 | one group for each key that some row has, in the order in which they come, with exactly the rows of that key, each as often as it came |
| `Aggregates.KeyMeans` | src/exec/aggregate.rs:141-156 | the key of a row are the values of the GROUP BY expressions on it |
| `Aggregates.AggregateOperator.constructor` | src/exec/aggregate.rs:118-134 | the stream to come is the one of the groups |
| `Aggregates.AggregateOperator.ComputeAggregates` | src/exec/aggregate.rs:136-210 | one pass gives one row per group in order of first appearance, each folded over its own rows, those that HAVING lets through; the first error in the input, in an expression or in HAVING ends it |
| `Aggregates.AggregateOperator.Next` | src/exec/aggregate.rs:214-229 | yields those rows one by one |
| `Aggregates.Tabulate` | src/exec/aggregate.rs:137-178 | after any part of the input the table has exactly the groups seen, each with the folds of its rows |
| `Aggregates.GroupWithRow` | src/exec/aggregate.rs:157-178 | the group of the row, new or not, takes it into every accumulator |
| `Aggregates.Finish` | src/exec/aggregate.rs:180-210 | keys and results in order, filtered by HAVING as the code evaluates it; without GROUP BY one group even for no rows |
| `Aggregates.GroupsPartition` | src/exec/aggregate.rs:141-178 | any weight summed group by group is its sum over the input |
| `Aggregates.CountsAddUp` | src/exec/aggregate.rs:141-178 | the COUNT(*) column of the output adds up to the number of rows that came in, modulo wrapping |
| `Aggregates.SumsAddUp` | src/exec/aggregate.rs:141-178 | a SUM column of the output adds up to the sum over all rows that came in, modulo wrapping |
| `Aggregates.ColumnsAddUp` | src/exec/aggregate.rs:141-193 | and so does any column of counts or sums, whatever a single row adds to it |
| `Aggregates.HavingAligned` | src/exec/aggregate.rs:195-203 | HAVING reads a group's key rightly when the columns it names are at the same place in the input and in GROUP BY |
| `Aggregates.HavingMisread` | src/exec/aggregate.rs:195-203 | a column at another place is read wrongly for some group, whatever the results of its aggregates |
| `Aggregates.HavingAggregate` | src/exec/aggregate.rs:195-203 | HAVING that compares an aggregate fails on the first group |
| `Tokens.RefreshSessionStore.IssueToken` | src/auth/mod.rs:418-445 | a token of a new family, good for thirty days; nothing else changes |
| `Tokens.RefreshSessionStore.RotateToken` | src/auth/mod.rs:447-507 | accepted exactly when known, in time and not revoked, then revoked and replaced within its family; a revoked one in time kills its family; otherwise nothing changes |
| `Tokens.ThirtyDays` | src/auth/mod.rs:418-507 | in any run a token is expired exactly when more than 2592000 seconds have passed since it was given out, and what it is exchanged for in time holds for 604800 |
| `Tokens.RefreshSessionStore.RevokeFamily` | src/auth/mod.rs:509-515 | no token of the family remains, all others do; a family never issued changes nothing |
| `Tokens.RefreshSessionStore.RevokeToken` | src/auth/mod.rs:517-525 | the token is revoked if known; its family lives on |
| `Tokens.OneLiveRotated` | src/auth/mod.rs:475-500 | one rotation keeps that |
| `Tokens.Serve` | src/auth/mod.rs:410-526 | for any requests, the i-th answer is the one that the tokens after the first i requests call for |
| `Tokens.NoTokenTwice` | src/auth/mod.rs:447-507 | in no run is a token accepted twice |
| `Tokens.NoDeadFamily` | src/auth/mod.rs:483-490 | in no run is a token accepted of whose family a revoked one was used in time before |
| `Tokens.SecondUse` | src/auth/mod.rs:447-507 | so a second use of an accepted token, in time, ends the session for every token of its family |
| `Tokens.OneLiveAlways` | src/auth/mod.rs:410-526 | after any requests a family has at most one token that is not revoked |
| `RateLimits.RateLimiter.CheckRateLimit` | src/http/rate_limit.rs:39-65 | the verdict on the list kept, for any limit, window and clock, and what is kept afterwards; other keys are unaffected |
| `RateLimits.JudgeMeans` | src/http/rate_limit.rs:46-64 | let through exactly when fewer than the limit were let through within the window |
| `RateLimits.HistoryNext` | src/http/rate_limit.rs:50-64 | requests a limit apart stay a window apart |
| `RateLimits.SpacedCounts` | src/http/rate_limit.rs:39-65 | so no window, wherever it starts, holds more than the limit |
| `RateLimits.RetryExact` | src/http/rate_limit.rs:57-60 | a refused key that stays idle is let through at exactly the time it was told and not before; with a limit of zero never |
| `RateLimits.ClockAtZero` | src/http/rate_limit.rs:46-55 | at time zero nothing limits |
| `RateLimits.Serve` | src/http/rate_limit.rs:39-65 | for requests of any keys in any order by a clock that does not run backwards, every answer is the verdict on everything that was ever let through for its key, although the code forgets |
| `RateLimits.NoFlood` | src/http/rate_limit.rs:39-65 | no window past zero, wherever it starts, holds more requests of a key that were let through than its limit |
| `RateLimits.KeysApart` | src/http/rate_limit.rs:39-65 | a key is let through exactly as if it were alone |
| `RateLimits.ThroughSpaced` | src/http/rate_limit.rs:46-64 | requests a limit apart that were let through are a window apart, in every run |
| `WebSockets.EncodeTextFrame` | src/http/websocket.rs:113-130 | the frame that the standard prescribes for the text, with the shortest length form |
| `WebSockets.DecodeFrame` | src/http/websocket.rs:132-192 | one frame from the front of the buffer, or nothing while it is incomplete |
| `WebSockets.DecodeEncoded` | src/http/websocket.rs:132-192 | every frame, masked or not and in any length form, is read back as sent, whatever follows it |
| `WebSockets.DecodePart` | src/http/websocket.rs:132-192 | no frame is read from a part of one |
| `WebSockets.DecodedExtends` | src/http/websocket.rs:132-192 | what was decoded does not depend on bytes to come |
| `WebSockets.MaskedTwice` | src/http/websocket.rs:184-189 | the mask takes itself off |
| `WebSockets.MaskBits` | src/http/websocket.rs:184-189 | bit by bit, every byte is the exclusive or with byte i mod 4 of the mask |
| `WebSockets.ReadInParts` | src/http/websocket.rs:223-226 | reading a stream piece by piece gives what reading it at once gives, for any bytes |
| `WebSockets.ReadEncoded` | src/http/websocket.rs:223-232 | a sequence of frames is read as its opcodes and payloads in order, up to a close frame |
| `WebSockets.FrameReader.Receive` | src/http/websocket.rs:217-232 | after every read the messages handled are those of the whole stream so far |
| `WebSockets.ReadSession` | src/http/websocket.rs:208-232 | frames cut into chunks anywhere are handled as sent |
| `WebSockets.PongReads` | src/http/websocket.rs:235-240 | a pong carries its ping's payload exactly when that is shorter than 126 bytes |

## Left out

- BTrees.BTree.Insert: with entries of more than 167 bytes and of different widths it may end in `PageOverflow`, after which nothing is said of the pages; the code's split by count does not guarantee more.
- BTrees.BTree.Delete: the same without fixed widths, when a separator that replaces a shorter one, or a merged node, does not fit its page.
- Tables.InsertRow: a string of more than 65535 bytes, on which the code panics, is refused here with an error of its own; a row has as many values as the table has columns, which both callers in the source see to.
- Engines.Engine.Execute: not after a statement of the same transaction has written values of other types than their columns, or has failed in a way that `Engines.Survives` does not admit: for want of room, after an UPDATE was refused a row, or after a root had moved; then only BEGIN, COMMIT and ROLLBACK are modelled.
- Engines.Engine.ExecuteMutating: a statement that fails after a root of its table or of an index has moved does not tell the catalog; that the pages are in order for a catalog that knows the new roots is stated (`Engines.Aimed`), what is read through the old roots is not.
- Engines.Engine.Commit: after a failed statement it is not followed further what the tables hold and whether the feed replays to it, beyond `Engines.CommittedAfterStop`.
- Engines.Session: scripts whose statements write values of the types of their columns, and a client that answers a failure inside a transaction with ROLLBACK.
- Engines.Engine.Select: one table, all columns; a SELECT over a join is not rewritten by policies.
- Planner.BuildSelectPlan: where a seek finds rows of which its equality is not true, the rows are stated by what the seek reads and the rest of the clause, not by the clause.
- Mistyped.StraysExactly: strings are any bytes; that a value's bytes must be valid UTF-8 would take some of the clashes with numbers away.
- Operators.Filter.Next: after an error nothing is said of later pulls.
- Aggregates.FoldMeans: sums wrap around as in a release build; a debug build panics.
- Tokens.RefreshSessionStore.RotateToken: tokens stand for their hashes, new ones are inputs that were never used, and the time is an input.
- RateLimits.Serve: every key has one limit and one window throughout a run; the verdict itself takes any.
- WebSockets.DecodeFrame: lengths are unbounded numbers; a length field near 2^64, on which the code's sum would wrap, is not modelled.
- SlottedPages.DecodeLeaf: for pages that hold an encoded leaf; the code panics on others.
- Input and output, the page cache, the journal's file format and crash recovery; a transaction is a snapshot of the pages and the catalog.
- Page numbers are unbounded, the free list is a sequence and not links on pages, and the page of an old root that a deletion leaves behind stays unused, as in the code.
- The catalog inside the engine is a map; how its tree keeps one record is in `Catalogs.ReplaceRecord`.
- CREATE, DROP and ALTER as statements of a session; ALTER TABLE reinserts rows against indexes that still hold the old keys.
- Floats, vectors, LIKE, JSON paths and full-text search; aggregates and subqueries inside row expressions are one constructor that never evaluates.
- ORDER BY, LIMIT, projections and RETURNING, which would add easy members.
- The conversion of literals and column lists of INSERT; the resolution of subqueries.
- Time stamps of change events; the channel to listeners, which may drop events, is a sequence.
- Sessions that share a database, locks, and the interleaving of their statements.
- The SQL parser, dump and restore, HTTP routing, storage, cryptography and the command line.
