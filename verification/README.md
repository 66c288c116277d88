# Verified model of Frigg's vector store, manifest cache and context-log aggregates

Frigg keeps its semantic index in sqlite-vec's `vec0` virtual table. Rows live in fixed-size chunks: a validity
bitmap, an array of rowids, one blob per vector column and one per metadata column. A separate table maps each rowid
to its chunk and offset. Freed slots keep stale rowids and vectors, long text is split between a 16-byte view and a
side table, and a k-nearest-neighbour query narrows a bitmap chunk by chunk, selects the k nearest of each chunk and
merges them into a running top k. This project models that engine together with the cache of validated manifest
snapshots that readers and the file watcher share, and the bounded caches and saturating aggregates of the
context-efficiency log. `dafny verify dfyconfig.toml` checks everything.

How the modules build up:

* `Bitmap`, `SqlValue`, `Metadata`, `VectorBlob`: the bytes of a chunk, and what writing one slot does to the others.
* `FilterBitmap`, `FilterExactness`: the metadata filters as in-place loops, and exactly when their verdict is SQL's.
* `Store`, `Statements`, `Refinement`, `Sequence`, `Admission`, `Allocation`: the storage invariant, the statements
  as functions on the state, their refinement of a plain map from rowid to row over every run, the rowids they give
  out, what they accept and store, and where rows are put.
* `Vec0Table`: the table as a class whose methods change its fields step by step, proved against those functions.
* `RowidSearch`, `Ranking`, `TopK`, `Knn`, `KnnRows`, `EndToEnd`: the query, from the selection loop over arrays to
  the statement that, after any run, a query answers with the nearest rows of the map.
* `Plan`, `PlannedQuery`: query planning, the meaning of the plan string, and the query rebuilt from it.
  `ColumnParser`: vector column definitions. `Hamming`: the two bit distances and binary quantisation.
* `Ordering`, `ManifestValidation`, `HashAgreement`, `ManifestCache`, `ReaderProtocol`, `DirtyMark`: sort-and-compare
  validation as multiset equality, and the three-lock reader protocol over all interleavings with the watcher.
* `FifoCache`, `LogCache`, `ContextLog`: the queue-and-map caches, alone and in front of growing logs, and aggregation
  as a homomorphism despite saturation.

Distances are values of an arbitrary function into the reals. A chunk's identifier is its index plus one: chunk ids
are assigned in ascending order and chunks are never deleted. A statement that fails leaves the table unchanged, as
SQLite's statement rollback does. Repository lines that are cited without a directory below are in
`crates/cli/vendor-sqlite-vec/sqlite-vec.c`.

Where code and documentation disagree, the model follows the code:

* The ordered text operators treat length 12 as long while the writer stores it inline, so a query with `>`, `>=`,
  `<` or `<=` on a text column fails as soon as a scanned live row holds 12 bytes (6155, 6192, 6223, 6254).
* For long values `>=` and `<` compare only the stored length, which is wrong for a proper prefix of the target.
* `rowid in (...)` narrows 64-bit differences to 32 bits (1036), so ids equal modulo 2^32 can be confused.
* Boolean values and targets are read as C ints (8085, 8127, 6408), so a boolean column accepts and cuts 64-bit integers
  that are 0 or 1 modulo 2^32, and a constraint on it can be wrong for a target other than 0 and 1. A fractional target
  on an integer column is cut towards zero (6419), so `year < 2024.5` loses 2024.
* Rows with a NULL partition key open a new chunk each, since SQL equality never finds their chunk (4122-4147).
* The comments in the delete function (8683-8684) announce zeroed rowids and vectors; the code leaves both in place.
* The parser comment (2351-2352) calls a repeated `distance_metric` an error; the code keeps the last one. Most of the
  parser's checks refuse a token only if the scan failed as well.
* Invalidating a root does not stop a reader that was about to store, or was in the middle of its unlocked walk, when
  the root was marked dirty: what it saw before the mark may be served afterwards. The mark protects exactly when there
  is no such reader.

## Model

| member | source | states |
|---|---|---|
| EndToEnd.QueryAfterRun | crates/cli/vendor-sqlite-vec/sqlite-vec.c:6522-6925 | After any run of inserts, updates and deletes from the empty table, whatever slots were freed and reused, a query holds exactly the min(k, matches) nearest of the wanted rows of the plain rowid map that the run describes, none lost, repeated or resurrected: the rows of which every partition constraint holds of its own column, every metadata constraint and every distance bound holds, and whose rowid is in the list if there is one. This whenever each comparison made on a row of a partition that is scanned is one the filters decide exactly; rows of other partitions do not matter. |
| EndToEnd.OrdinaryQueryAfterRun | crates/cli/vendor-sqlite-vec/sqlite-vec.c:6522-6925 | So for every query without a rowid list whose metadata comparisons are ordinary ones, a boolean with 0 or 1, an integer with integers, a float with numbers, = or <> or IN of text without zero bytes, the query never fails after any run and answers with the nearest wanted rows, with no further condition. |
| EndToEnd.AnswerIsNearest | crates/cli/vendor-sqlite-vec/sqlite-vec.c:6646-6897 | In any state that satisfies the storage invariant, under the same condition, the query never fails and lists the nearest wanted rows of the abstract table in ascending distance. |
| EndToEnd.AnswerIsUnique | crates/cli/vendor-sqlite-vec/sqlite-vec.c:5759-5792 | A query has one answer: equal distances are resolved by chunk order and then by descending slot, so rowids and distances are determined. |
| Vec0Table.Vec0Table.QueryKnn | crates/cli/vendor-sqlite-vec/sqlite-vec.c:6927-7025 | The query of the mutable table: argument errors in the code's order (vector, negative k, k above 4096), nothing for k = 0, failure just when a scanned live row holds text the filter cannot decide, and otherwise the top k of all matching live slots in (distance, chunk, descending slot) order. |
| Vec0Table.Vec0Table.constructor | crates/cli/vendor-sqlite-vec/sqlite-vec.c:5154-5158 | A new table satisfies the invariant and represents the empty map. |
| Vec0Table.Vec0Table.Insert | crates/cli/vendor-sqlite-vec/sqlite-vec.c:8236-8467 | Insert acts on the map of rows as a plain map insertion of what is stored of the values, under the given rowid or the next of the sequence; every refusal (partition type, wrong vector, duplicate or exhausted rowid, metadata type) leaves the whole store as it was. |
| Vec0Table.Vec0Table.Delete | crates/cli/vendor-sqlite-vec/sqlite-vec.c:8665-8724 | Delete removes exactly its row from the map, or reports the missing rowid and changes nothing. |
| Vec0Table.Vec0Table.Update | crates/cli/vendor-sqlite-vec/sqlite-vec.c:8826-8932 | Update replaces exactly the given vectors and metadata of its row by what is stored of them, or fails (missing row, changed partition key, wrong vector or type) and changes nothing. |
| Vec0Table.Vec0Table.GetVectorData | crates/cli/vendor-sqlite-vec/sqlite-vec.c:3868-3939 | A point read returns the vector last written for the rowid, and none for a rowid that is absent. |
| Vec0Table.Vec0Table.GetMetadataValue | crates/cli/vendor-sqlite-vec/sqlite-vec.c:4036-4120 | A point read returns the metadata value last written for the rowid, at every text length. |
| Vec0Table.Vec0Table.InsertNextAvailableStep | crates/cli/vendor-sqlite-vec/sqlite-vec.c:7766-7852 | The mutating slot search returns the position, and leaves the chunks, that the allocation function gives. |
| Vec0Table.Vec0Table.InsertWriteFinalStep | crates/cli/vendor-sqlite-vec/sqlite-vec.c:7957-8075 | Sets the validity bit, writes all vectors and the rowid into one slot, records the position, and nothing else. |
| Vec0Table.Vec0Table.WriteMetadataValue | crates/cli/vendor-sqlite-vec/sqlite-vec.c:8077-8228 | Writes one metadata value into its slot and its side table, a boolean cut to a C int first, with the type error of the code. |
| Vec0Table.Vec0Table.InsertRowidStep | crates/cli/vendor-sqlite-vec/sqlite-vec.c:7696-7744 | The rowid of an insert names no row yet: it is the supplied one, or, when none is supplied, one above the counter. It is refused exactly when the supplied one is taken or the counter is at the largest 64-bit integer. |
| Vec0Table.Vec0Table.DeleteRowSteps | crates/cli/vendor-sqlite-vec/sqlite-vec.c:8665-8724 | The delete steps together: validity bit cleared, rowid row removed, metadata zeroed, long text removed; stale rowid and vector stay. |
| Vec0Table.Vec0Table.ClearMetadataColumn | crates/cli/vendor-sqlite-vec/sqlite-vec.c:8588-8663 | Zeroes one metadata slot and removes the long text of the rowid. |
| Vec0Table.Vec0Table.UpdateVectors | crates/cli/vendor-sqlite-vec/sqlite-vec.c:8748-8824 | Rewrites the given vector columns of one slot in place. |
| Refinement.RunRefines | crates/cli/vendor-sqlite-vec/sqlite-vec.c:8934-8951 | Every run of statements keeps the storage invariant and, seen through the abstraction, is the same run on a plain map from rowid to row. |
| Refinement.StepRefines | crates/cli/vendor-sqlite-vec/sqlite-vec.c:8934-8951 | Each single statement, successful or refused, refines its map operation and keeps the invariant. |
| Refinement.InsertRefines | crates/cli/vendor-sqlite-vec/sqlite-vec.c:8236-8467 | Insert refines insertion into the map, error for error, even into a freed slot that still holds a stale rowid and vector. |
| Refinement.DeleteRefines | crates/cli/vendor-sqlite-vec/sqlite-vec.c:8665-8724 | Delete refines removal from the map, error for error. |
| Refinement.UpdateRefines | crates/cli/vendor-sqlite-vec/sqlite-vec.c:8826-8932 | Update refines replacement in the map, error for error. |
| Refinement.EmptyInv | crates/cli/vendor-sqlite-vec/sqlite-vec.c:5154-5158 | The empty store satisfies the invariant and represents the empty map. |
| Sequence.CounterIsLargest | crates/cli/vendor-sqlite-vec/sqlite-vec.c:7696-7744 | Over every run from the empty table the counter is the largest rowid that any successful insert of the run returned, or 0, rows deleted since included. |
| Sequence.AutomaticRowid | crates/cli/vendor-sqlite-vec/sqlite-vec.c:3384-3384 | So an automatic rowid is one above the largest rowid any insert of the run returned, and 1 when none was positive. |
| Admission.InsertMeans | crates/cli/vendor-sqlite-vec/sqlite-vec.c:8236-8467 | In the terms of its arguments, an insert fails with the first of: a partition key that is neither NULL nor of the declared type, a vector of another element type or byte length than declared, no rowid left, a rowid taken, a metadata value of another type; and otherwise adds the row with the keys, bytes and values given, a boolean cut to its low 32 bits, and leaves every other. |
| Admission.UpdateMeans | crates/cli/vendor-sqlite-vec/sqlite-vec.c:8826-8932 | An update fails, in the order of the code, on a missing row, a changed partition key, a metadata value or a vector the column does not admit; otherwise it replaces exactly the columns given, and keeps the row's other columns and every other row. |
| Store.AddRow | crates/cli/vendor-sqlite-vec/sqlite-vec.c:7957-8075 | Giving a free slot to a new rowid adds exactly one row and keeps the invariant. |
| Store.RemoveRow | crates/cli/vendor-sqlite-vec/sqlite-vec.c:8665-8724 | Freeing a row's slot with its metadata blanked removes exactly that row and keeps the invariant. |
| Store.InPlace | crates/cli/vendor-sqlite-vec/sqlite-vec.c:8826-8932 | Rewriting a live slot keeps the invariant and every other row. |
| Store.OtherRow | crates/cli/vendor-sqlite-vec/sqlite-vec.c:7957-8075 | A change confined to one slot leaves every row stored elsewhere reading the same. |
| Store.PositionsDistinct | crates/cli/vendor-sqlite-vec/sqlite-vec.c:7766-8075 | No two rowids share a chunk and offset. |
| Store.FreeSlotUnused | crates/cli/vendor-sqlite-vec/sqlite-vec.c:7828-7852 | A slot whose validity bit is clear belongs to no row. |
| Store.SplitText | crates/cli/vendor-sqlite-vec/sqlite-vec.c:8152-8214 | A live slot's text view is longer than 12 exactly when the side table has the row's text, whose length and first 12 bytes it then holds; a free slot's view is empty; long text belongs to live rows only. |
| Store.ReadsSucceed | crates/cli/vendor-sqlite-vec/sqlite-vec.c:4036-4120 | Reading any metadata column of any live row succeeds with a value of the column's type. |
| Store.SetVector | crates/cli/vendor-sqlite-vec/sqlite-vec.c:7919-7942 | Writing a vector changes that vector of that slot and nothing of any other slot of the chunk. |
| Store.SetCell | crates/cli/vendor-sqlite-vec/sqlite-vec.c:8114-8160 | Writing a metadata value changes that cell of that slot and nothing else of the chunk. |
| Store.SetLive | crates/cli/vendor-sqlite-vec/sqlite-vec.c:5823-5833 | Setting or clearing a validity bit changes that slot's liveness alone. |
| Statements.LatestChunk | crates/cli/vendor-sqlite-vec/sqlite-vec.c:4122-4191 | The newest chunk whose partition key equals the wanted one under SQL equality, or none. |
| Statements.LeastClear | crates/cli/vendor-sqlite-vec/sqlite-vec.c:7828-7838 | The first clear bit, with every earlier bit set, or none when all are set. |
| Statements.NewChunkKeeps | crates/cli/vendor-sqlite-vec/sqlite-vec.c:4397-4535 | Opening a chunk keeps the invariant and every row. |
| Statements.NextAvailableIsFree | crates/cli/vendor-sqlite-vec/sqlite-vec.c:7766-7852 | The slot an insert gets is free, in a chunk carrying exactly the row's partition key, and finding it changes no row. |
| Statements.PartitionMatchesIff | crates/cli/vendor-sqlite-vec/sqlite-vec.c:4122-4147 | Typed partition keys match under SQL equality exactly when they are the same key and none of its values is NULL. |
| Statements.LatestChunkIs | crates/cli/vendor-sqlite-vec/sqlite-vec.c:4149-4191 | The chunk looked into carries the very same key and no newer one does; a key with a NULL has none; in a table without partition keys it is the newest chunk. |
| Statements.WriteCellKeeps | crates/cli/vendor-sqlite-vec/sqlite-vec.c:8077-8228 | Writing one accepted metadata value never collides in the side table, changes that value of that row alone to what is stored of it, and keeps the invariant. |
| Statements.WriteCellsKeeps | crates/cli/vendor-sqlite-vec/sqlite-vec.c:8405-8452 | Writing a row's metadata column by column gives it the written values, or stops with the type error; other rows and the invariant stay. |
| Statements.PlaceKeeps | crates/cli/vendor-sqlite-vec/sqlite-vec.c:7957-8075 | Placing a row in a free slot keeps the invariant, adds one row with the given partition and vectors, and records its position. |
| Statements.DeleteKeeps | crates/cli/vendor-sqlite-vec/sqlite-vec.c:8665-8724 | Delete succeeds exactly for a stored rowid, removes that row alone and keeps the invariant. |
| Statements.DeleteLocal | crates/cli/vendor-sqlite-vec/sqlite-vec.c:8469-8558 | Delete touches only the row's own slot, which ends free with empty text views and its stale rowid and vectors in place, and leaves no long text behind. |
| Allocation.LiveSlotsAreRows | crates/cli/vendor-sqlite-vec/sqlite-vec.c:7766-8075 | The set validity bits are exactly the recorded positions, and there are as many of them as rows. |
| Allocation.InsertAllocates | crates/cli/vendor-sqlite-vec/sqlite-vec.c:7766-7852 | A successful insert takes the least clear slot of the partition's newest chunk, or slot 0 of a fresh chunk when that is full or absent, a slot no row was using, and touches no other. |
| Allocation.NotAllotted | crates/cli/vendor-sqlite-vec/sqlite-vec.c:4122-4191 | A chunk that a newer one of the same partition has replaced is never chosen again. |
| Allocation.NullNeverMatches | crates/cli/vendor-sqlite-vec/sqlite-vec.c:4122-4147 | A chunk with a NULL partition key is never found, so such rows always open a chunk. |
| Allocation.StepShrinks | crates/cli/vendor-sqlite-vec/sqlite-vec.c:7766-7852 | In a chunk left behind, one statement can only remove valid slots; those that stay keep their rowids. |
| Allocation.RunShrinks | crates/cli/vendor-sqlite-vec/sqlite-vec.c:7766-7852 | The same over every run: the valid slots of an older chunk only ever shrink. |
| Bitmap.SetBit | crates/cli/vendor-sqlite-vec/sqlite-vec.c:5823-5829 | Sets or clears one position and no other. |
| Bitmap.GetBit | crates/cli/vendor-sqlite-vec/sqlite-vec.c:5831-5833 | Reads the position. |
| Bitmap.AndInPlace | crates/cli/vendor-sqlite-vec/sqlite-vec.c:5816-5821 | Position by position conjunction. |
| Bitmap.Clear | crates/cli/vendor-sqlite-vec/sqlite-vec.c:5835-5841 | Every position is clear afterwards. |
| Bitmap.FirstClear | crates/cli/vendor-sqlite-vec/sqlite-vec.c:7828-7838 | The nested search loop, skipping full bytes, finds the least clear position or reports none. |
| Bitmap.FullByte | crates/cli/vendor-sqlite-vec/sqlite-vec.c:7829-7832 | The byte the search skips is exactly the one without a clear bit. |
| Bitmap.WithBitOnly | crates/cli/vendor-sqlite-vec/sqlite-vec.c:5823-5829 | Rewriting one bit of a byte leaves its seven neighbours. |
| VectorBlob.AddressesAgree | crates/cli/vendor-sqlite-vec/sqlite-vec.c:7919-7942 | For every vector the dimension check admits, the writer's, the point reader's and the scan's byte offsets coincide and lengths equal the column's byte size, for float, int8 and bit. |
| VectorBlob.SlotsDisjointAndBounded | crates/cli/vendor-sqlite-vec/sqlite-vec.c:6773-6821 | Distinct slots never overlap, offset plus length stays inside the blob, and with the limits of 4096 slots and 8192 dimensions the blob stays within 2^27 bytes. |
| VectorBlob.WriteThenRead | crates/cli/vendor-sqlite-vec/sqlite-vec.c:3902-3911 | Reading a slot after a write returns the written bytes for that slot and the former bytes for every other. |
| VectorBlob.KnnRead | crates/cli/vendor-sqlite-vec/sqlite-vec.c:6773-6821 | The scan reads the same bytes as the point reader. |
| VectorBlob.SpliceElsewhere | crates/cli/vendor-sqlite-vec/sqlite-vec.c:7919-7942 | Writing a range leaves every disjoint range. |
| Metadata.WriteSlot | crates/cli/vendor-sqlite-vec/sqlite-vec.c:8114-8160 | Writing a boolean bit, number or text view changes its own slot and no other, within one column blob. |
| Metadata.WriteThenRead | crates/cli/vendor-sqlite-vec/sqlite-vec.c:8077-8228 | For every value the writer accepts, over any slot in order: view and side table are in order afterwards, the side insert does not collide, and the read returns what is stored of the value, for text of every length and every change between short and long. |
| Metadata.StoredAsGivenIff | crates/cli/vendor-sqlite-vec/sqlite-vec.c:8084-8127 | An accepted value is stored as given if and only if it has the column's type: a boolean column also accepts integers that are 0 or 1 only after being cut to a C int. |
| Metadata.BooleanNarrowed | crates/cli/vendor-sqlite-vec/sqlite-vec.c:8084-8127 | A boolean column accepts 4294967296 and stores false. |
| Metadata.CellReads | crates/cli/vendor-sqlite-vec/sqlite-vec.c:4036-4120 | A slot in order always reads as a value of the column's type. |
| Metadata.CellVerdictIsValueVerdict | crates/cli/vendor-sqlite-vec/sqlite-vec.c:6037-6332 | Filtering view and side table gives the verdict that filtering the full stored value would. |
| FilterBitmap.BooleanFilter | crates/cli/vendor-sqlite-vec/sqlite-vec.c:6407-6416 | The in-place bitmap loop, with its target cut to a C int, sets each slot's bit to the code's boolean verdict. |
| FilterBitmap.NumberFilter | crates/cli/vendor-sqlite-vec/sqlite-vec.c:6417-6508 | Integer and float loops: each bit is set exactly when the comparison holds. |
| FilterBitmap.IntegerInFilter | crates/cli/vendor-sqlite-vec/sqlite-vec.c:6273-6332 | Integer IN: a bit is set exactly when the value is among the targets. |
| FilterBitmap.TextInSlot | crates/cli/vendor-sqlite-vec/sqlite-vec.c:6273-6332 | Text IN for one slot, target by target with the prefix shortcut. |
| FilterBitmap.TextFilter | crates/cli/vendor-sqlite-vec/sqlite-vec.c:6037-6332 | All text operators: succeeds exactly when every slot is decidable, and then each bit is that slot's verdict. |
| FilterBitmap.SetMetadataFilterBitmap | crates/cli/vendor-sqlite-vec/sqlite-vec.c:6356-6520 | The whole filter of one constraint over one chunk: success and every bit, for every column kind. |
| FilterExactness.VerdictIsSql | crates/cli/vendor-sqlite-vec/sqlite-vec.c:6356-6520 | For a target of any numeric type, or NULL, on a column of numbers, and text on text: wherever the stated exactness condition holds, the code's verdict is SQL's comparison of the full stored value with the target as given. |
| FilterExactness.ExactIff | crates/cli/vendor-sqlite-vec/sqlite-vec.c:6356-6520 | On columns of numbers, and on text without zero bytes, the condition is necessary as well: the verdict is SQL's comparison if and only if it holds. |
| FilterExactness.EqualityExactIff | crates/cli/vendor-sqlite-vec/sqlite-vec.c:6075-6146 | Text = and <> decide every stored value correctly if and only if the target has no zero byte before its last position. |
| FilterExactness.TextEqualsIsSameCString | crates/cli/vendor-sqlite-vec/sqlite-vec.c:6075-6146 | In general text equality means the same length and the same bytes up to the first zero byte. |
| FilterExactness.NoEmbeddedZeroDecides | crates/cli/vendor-sqlite-vec/sqlite-vec.c:6075-6146 | Without an embedded zero in the target, equality as C strings is equality. |
| FilterExactness.EmbeddedZeroConfuses | crates/cli/vendor-sqlite-vec/sqlite-vec.c:6075-6146 | With one, some different stored value passes as equal. |
| FilterExactness.MembershipExact | crates/cli/vendor-sqlite-vec/sqlite-vec.c:6273-6332 | Text IN through view and side table is membership, at every length, for targets without embedded zero bytes. |
| FilterExactness.OrderedErrorIff | crates/cli/vendor-sqlite-vec/sqlite-vec.c:6148-6271 | An ordered text constraint fails the query if and only if the stored length is exactly 12. |
| FilterExactness.OrderedExactIff | crates/cli/vendor-sqlite-vec/sqlite-vec.c:6148-6271 | An ordered text constraint gives SQL's answer if and only if the stored length is not 12 and it is not a >= or < comparison of a long value that is a proper prefix of the target. |
| FilterExactness.BooleanExactIff | crates/cli/vendor-sqlite-vec/sqlite-vec.c:6407-6416 | A boolean constraint gives SQL's answer if and only if, with the target cut to a 64-bit integer and then to a C int: for a stored 0 it is 0 just when the whole target is 0, and for a stored 1 it is not 0 just when the whole target is 1; NULL, read as 0, only when the answer is no. |
| FilterExactness.BooleanTargetExactIff | crates/cli/vendor-sqlite-vec/sqlite-vec.c:6407-6416 | It does so for every stored value if and only if the target is a number equal to 0 or 1. |
| FilterExactness.WideTargetCounterexample | crates/cli/vendor-sqlite-vec/sqlite-vec.c:6408-6408 | A stored 0 passes = 4294967296. |
| FilterExactness.IntegerExactIff | crates/cli/vendor-sqlite-vec/sqlite-vec.c:6417-6447 | A comparison with an integer column gives SQL's answer if and only if the target is NULL and the comparison with 0 fails, or is an integer, or is a fraction and the stored value is not the integer it is cut to, or the operator lies on the near side of the fraction. |
| FilterExactness.IntegerMembershipExactIff | crates/cli/vendor-sqlite-vec/sqlite-vec.c:6448-6472 | Integer IN gives SQL's answer if and only if, whenever some target is read as the stored value, some target equals it. |
| FilterExactness.FloatExactIff | crates/cli/vendor-sqlite-vec/sqlite-vec.c:6474-6508 | A comparison with a float column gives SQL's answer unless the target is NULL and the comparison with 0 holds. |
| FilterExactness.FractionCounterexample | crates/cli/vendor-sqlite-vec/sqlite-vec.c:6419-6432 | year < 2024.5 loses 2024. |
| FilterExactness.TruncateNext | crates/cli/vendor-sqlite-vec/sqlite-vec.c:6419-6419 | The integer a fraction is cut to is next to it, on the side of zero, for every 64-bit integer that can be stored. |
| FilterExactness.TwelveByteCounterexample | crates/cli/vendor-sqlite-vec/sqlite-vec.c:6155-6160 | A 12 byte value under >= makes the query fail where SQL has an answer. |
| FilterExactness.LongPrefixCounterexample | crates/cli/vendor-sqlite-vec/sqlite-vec.c:6206-6209 | A long value that is smaller than the target passes >=. |
| SqlValue.StrncmpStored | crates/cli/vendor-sqlite-vec/sqlite-vec.c:6175-6178 | Comparing as many bytes as are stored agrees with the collation order unless the stored text is a proper prefix of the target. |
| SqlValue.StrncmpCommon | crates/cli/vendor-sqlite-vec/sqlite-vec.c:6155-6166 | Comparing the common length and then the lengths is the collation order on texts without zero bytes. |
| SqlValue.SqlHoldsMeans | crates/cli/vendor-sqlite-vec/sqlite-vec.c:5961-5966 | What a comparison in SQL asks: NULL answers none, numbers compare by value across integers and reals, texts at their first differing byte or by length, and numbers come before texts. |
| SqlValue.TruncateMeans | crates/cli/vendor-sqlite-vec/sqlite-vec.c:6419-6419 | A real in the range of 64-bit integers is cut towards zero by less than one, and one outside becomes the nearer end. |
| SqlValue.NarrowMeans | crates/cli/vendor-sqlite-vec/sqlite-vec.c:6408-6408 | A 64-bit integer read as a C int is the one signed 32-bit number that differs from it by a multiple of 2^32. |
| RowidSearch.Bsearch | crates/cli/vendor-sqlite-vec/sqlite-vec.c:6718-6732 | The binary search loop over the rowid list with the code's comparison. |
| RowidSearch.SearchIsMembership | crates/cli/vendor-sqlite-vec/sqlite-vec.c:1036-1036 | On a sorted list whose differences to the key fit 32 bits, the search is set membership. |
| RowidSearch.WindowExactIff | crates/cli/vendor-sqlite-vec/sqlite-vec.c:1036-1036 | For two bounds, the search is set membership for every sorted list and key between them if and only if they are less than 2^31 apart. |
| RowidSearch.MissedPastTheMiddle | crates/cli/vendor-sqlite-vec/sqlite-vec.c:1036-1036 | The last of three sorted ids is missed when it is 2^31 above the middle one. |
| RowidSearch.SingletonMatchesModulo | crates/cli/vendor-sqlite-vec/sqlite-vec.c:1036-1036 | In general a single id matches exactly the keys equal to it modulo 2^32. |
| RowidSearch.NarrowingCounterexample | crates/cli/vendor-sqlite-vec/sqlite-vec.c:1036-1036 | The list [0] is found to contain 2^32. |
| TopK.MinIdx | crates/cli/vendor-sqlite-vec/sqlite-vec.c:5843-5885 | For every candidate bitmap and k: min(k, candidates) distinct candidates sorted by ascending distance and then descending index, every other candidate after the last of them, and the taken bitmap equal to the chosen set. |
| TopK.NearestFree | crates/cli/vendor-sqlite-vec/sqlite-vec.c:5863-5877 | One round of the selection finds the untaken candidate that comes first, or that none is left. |
| TopK.MergeSortedLists | crates/cli/vendor-sqlite-vec/sqlite-vec.c:5759-5792 | The two-pointer merge over the four arrays fills the output with the specified merge, cut off at k. |
| TopK.SelectionIsTop | crates/cli/vendor-sqlite-vec/sqlite-vec.c:6878-6892 | The selected slots of a chunk are the top k hits of the chunk. |
| Ranking.MergeIsTop | crates/cli/vendor-sqlite-vec/sqlite-vec.c:5759-5792 | Merging two lists that were each cut to k gives the top k of the union: no true top k element is dropped. |
| Ranking.MergeTakesPrefixes | crates/cli/vendor-sqlite-vec/sqlite-vec.c:5759-5792 | A merge takes a prefix of each list, in order, and everything left behind comes later. |
| Ranking.TopIsUnique | crates/cli/vendor-sqlite-vec/sqlite-vec.c:5843-5885 | The top k of a set of slots is one list. |
| Ranking.TopIsNearest | crates/cli/vendor-sqlite-vec/sqlite-vec.c:6646-6897 | A top k list of hits, one per row, is a nearest-neighbour answer over rows. |
| Knn.ApplyRowidIn | crates/cli/vendor-sqlite-vec/sqlite-vec.c:6718-6736 | Valid slots narrowed to those whose stored rowid the search finds in the list. |
| Knn.ApplyConstraint | crates/cli/vendor-sqlite-vec/sqlite-vec.c:6356-6520 | One metadata constraint: fails or narrows the candidates by its verdict. |
| Knn.ApplyMetadata | crates/cli/vendor-sqlite-vec/sqlite-vec.c:6737-6762 | ANDing the bitmaps of all constraints yields their conjunction on the candidates; fails exactly when one of them cannot be decided on some slot. |
| Knn.ComputeDistances | crates/cli/vendor-sqlite-vec/sqlite-vec.c:6765-6827 | Each candidate slot's distance is the metric on its stored vector and the query. |
| Knn.ApplyDistances | crates/cli/vendor-sqlite-vec/sqlite-vec.c:6829-6876 | Candidates narrowed to the slots meeting every distance bound. |
| Knn.ScanChunk | crates/cli/vendor-sqlite-vec/sqlite-vec.c:6656-6880 | One chunk: failure just when a filter fails, and otherwise the chunk's k best matching slots. |
| Knn.MergeChunk | crates/cli/vendor-sqlite-vec/sqlite-vec.c:6882-6892 | The running arrays after a chunk hold the merge of what they held and the chunk's list. |
| Knn.MergedIsTop | crates/cli/vendor-sqlite-vec/sqlite-vec.c:6882-6892 | The accumulator invariant: after each prefix of chunks, the k best hits seen so far, ties to earlier chunks. |
| Knn.KnnChunks | crates/cli/vendor-sqlite-vec/sqlite-vec.c:6646-6897 | The whole chunk loop: the top k over all scanned chunks, or failure just when some scanned chunk's filter fails. |
| KnnRows.ScanFindsMatches | crates/cli/vendor-sqlite-vec/sqlite-vec.c:6646-6897 | The slots the scan collects are exactly the matching live rows, each once. |
| KnnRows.SlotPassesIffRow | crates/cli/vendor-sqlite-vec/sqlite-vec.c:6718-6876 | A slot passes all bitmaps exactly when the row stored there passes the constraints, with the same rowid and distance. |
| KnnRows.ScannedIsInPartition | crates/cli/vendor-sqlite-vec/sqlite-vec.c:5961-5966 | A chunk is scanned just when every partition constraint, as a conjunction, holds of its own column's value. |
| KnnRows.PassedIsWithinBounds | crates/cli/vendor-sqlite-vec/sqlite-vec.c:6829-6876 | A distance passes just when it lies within every bound: greater, at least, less, at most. |
| KnnRows.FailsIffUndecidable | crates/cli/vendor-sqlite-vec/sqlite-vec.c:6148-6271 | A constraint fails on a stored value exactly when it is ordered and the value is text of 12 bytes. |
| KnnRows.ScanFailsIff | crates/cli/vendor-sqlite-vec/sqlite-vec.c:6737-6762 | A query fails exactly when some live row of a scanned partition holds such a value; freed slots never make it fail. |
| KnnRows.BlankNeverFails | crates/cli/vendor-sqlite-vec/sqlite-vec.c:6037-6332 | A free slot with an empty view is decidable under every constraint. |
| KnnRows.DecidedRow | crates/cli/vendor-sqlite-vec/sqlite-vec.c:6718-6876 | On rows whose comparisons are exact, passing the code's filters is meeting SQL's conditions. |
| KnnRows.MatchesAreWanted | crates/cli/vendor-sqlite-vec/sqlite-vec.c:6646-6897 | When the comparisons on rows of scanned partitions are exact, the matching rows are the rows SQL asks for, and no filter fails. |
| Plan.BestIndex | crates/cli/vendor-sqlite-vec/sqlite-vec.c:5356-5753 | In the terms of the statement: it is refused exactly when it has two MATCH terms or two rowid lists, or has a MATCH term and not exactly one of LIMIT and k, another order than ascending distance, a constraint on an auxiliary column, or a constraint on metadata or distance that is not one of those allowed; otherwise the plan is consistent. |
| Plan.KnnBestIndex | crates/cli/vendor-sqlite-vec/sqlite-vec.c:5441-5722 | The k-nearest-neighbour plan announces vector, k, rowid list and every partition, metadata and distance constraint, each once. |
| Plan.FindTerms | crates/cli/vendor-sqlite-vec/sqlite-vec.c:5370-5436 | One pass over the constraints settles MATCH, LIMIT, k, rowid and rowid list, or detects a clash. |
| Plan.AnnouncePass | crates/cli/vendor-sqlite-vec/sqlite-vec.c:5516-5719 | A pass announces exactly the constraints it is for and stops at an unsupported one. |
| Plan.PlanMeaning | crates/cli/vendor-sqlite-vec/sqlite-vec.c:5936-6018 | The plan string has length 1 + 4n, argument positions 1..n are each given to exactly one constraint, and decoding block i says what the constraint at position i + 1 asks: the vector, k or LIMIT, the rowid list, or its own column's index and operator. |
| Plan.RoleMeans | crates/cli/vendor-sqlite-vec/sqlite-vec.c:5441-5719 | Each role the planner gives a constraint is what the constraint asks for: the index of its own column among those of its kind, and its own operator. |
| Plan.RefusedIsStatementRefused | crates/cli/vendor-sqlite-vec/sqlite-vec.c:5370-5480 | The planner's refusals are exactly the statements to be refused. |
| Plan.DecodeEncode | crates/cli/vendor-sqlite-vec/sqlite-vec.c:6635-6644 | Decoding any block of an encoded plan gives the block back. |
| Plan.MetadataRoleSupported | crates/cli/vendor-sqlite-vec/sqlite-vec.c:5570-5664 | A metadata constraint is taken only for a metadata column, IN only for integer and text, and boolean only with = and <>. |
| Plan.PlannedFilterSupported | crates/cli/vendor-sqlite-vec/sqlite-vec.c:5570-5664 | So every metadata block of a finished plan names a column whose kind has that operator. |
| PlannedQuery.QueryIsStatement | crates/cli/vendor-sqlite-vec/sqlite-vec.c:6635-6645 | The query the scan rebuilds from plan string and arguments makes exactly the comparisons of the statement: on a partition or metadata column, with that column's index, the operator and the constraint's own argument, IN for a list on an integer or text column; on the distance, the four bounds. Its column and vector are those of the MATCH term, its k is the argument of LIMIT or k, it has a rowid list, with that constraint's argument, exactly when the statement has one, and no filter of the statement is left without an argument. |
| PlannedQuery.SpecialsAreAsked | crates/cli/vendor-sqlite-vec/sqlite-vec.c:6952-6967 | The blocks the scan takes for vector, k and rowid list belong to the MATCH term, to LIMIT or k, and to the rowid list constraint. |
| PlannedQuery.PlannedQueryOk | crates/cli/vendor-sqlite-vec/sqlite-vec.c:6955-6967 | Such a query names declared columns only, with operators their kinds support. |
| PlannedQuery.DecodedIsGiven | crates/cli/vendor-sqlite-vec/sqlite-vec.c:6635-6645 | An argument decodes to a block exactly when it was given to a constraint of that role. |
| PlannedQuery.RoleIsGiven | crates/cli/vendor-sqlite-vec/sqlite-vec.c:5516-5722 | No partition, metadata or distance constraint and no rowid list is left out of a plan. |
| PlannedQuery.LastBlock | crates/cli/vendor-sqlite-vec/sqlite-vec.c:6952-6967 | The loop over the blocks finds the last of a kind, or none. |
| Hamming.TableIsPopcount | crates/cli/vendor-sqlite-vec/sqlite-vec.c:489-500 | Each of the 256 table entries is the number of set bits of its index. |
| Hamming.DistanceHammingU8 | crates/cli/vendor-sqlite-vec/sqlite-vec.c:502-508 | The byte-table loop counts the differing bits. |
| Hamming.DistanceHammingU64 | crates/cli/vendor-sqlite-vec/sqlite-vec.c:528-534 | The 64-bit-word loop counts the same bits. |
| Hamming.WordDistance | crates/cli/vendor-sqlite-vec/sqlite-vec.c:528-534 | The set bits of the exclusive or of two words are the differing bits of their eight bytes. |
| Hamming.DistanceHamming | crates/cli/vendor-sqlite-vec/sqlite-vec.c:544-551 | Whichever loop the dimension selects, the result is the number of differing bit positions. |
| Hamming.QuantizeBinary | crates/cli/vendor-sqlite-vec/sqlite-vec.c:1350-1389 | Bit i of the output is set exactly when coordinate i is positive; zero length, a length not divisible by 8 and a bit vector are the errors. |
| Hamming.QuantizedDistance | crates/cli/vendor-sqlite-vec/sqlite-vec.c:1364-1389 | The distance of two quantised vectors is the number of coordinates whose positivity differs. |
| Hamming.DifferencesIsCardinality | crates/cli/vendor-sqlite-vec/sqlite-vec.c:502-508 | Counting differences position by position is the size of the set of differing positions. |
| ColumnParser.RoundTrip | crates/cli/vendor-sqlite-vec/sqlite-vec.c:2282-2413 | A definition of a name, an element type, a number and metrics, written with any word for the type (float, f32, int8, i8, bit, and any ending), leading zeros, shortened option keys and metrics, any letter case and any blanks that keep tokens apart, parses back to that name, element type, number and last metric; the number 0 is an error, and so is any option on a bit column. |
| ColumnParser.OptionsParse | crates/cli/vendor-sqlite-vec/sqlite-vec.c:2351-2402 | The option loop over any rendered options leaves the last metric named. The comment at 2351-2352 says a repeated metric should be an error; the code accepts it. |
| ColumnParser.UnknownWordRefused | crates/cli/vendor-sqlite-vec/sqlite-vec.c:2366-2399 | An option whose key is not a beginning of distance_metric, or whose value names no metric, is an error. |
| ColumnParser.MissingEqualsAccepted | crates/cli/vendor-sqlite-vec/sqlite-vec.c:2371-2387 | The equals sign may be missing at the end of a definition: the metric is then taken from the token left over. |
| ColumnParser.TokenIs | crates/cli/vendor-sqlite-vec/sqlite-vec.c:1812-1867 | A token is decided by the first character that is no blank: one of four symbols, a name that goes on through letters, digits and underscores, a number that goes on through digits, or none. |
| ColumnParser.AtoiReads | crates/cli/vendor-sqlite-vec/sqlite-vec.c:2341-2344 | The dimension is read as C reads a decimal number: blanks, one sign, digits up to the first other character, with any leading zeros. |
| ColumnParser.ElementTypeMeans | crates/cli/vendor-sqlite-vec/sqlite-vec.c:2317-2327 | The element type is the one whose word the text begins with, in any letter case. |
| ColumnParser.MetricMeans | crates/cli/vendor-sqlite-vec/sqlite-vec.c:2388-2399 | The metric is the one whose word the value shortens, in any letter case; l alone is L2. |
| ColumnParser.ParseVectorColumn | crates/cli/vendor-sqlite-vec/sqlite-vec.c:2282-2413 | The parser with one reused token terminates on every text, and its result does not depend on what the token held before the first scan. |
| ColumnParser.TokenNext | crates/cli/vendor-sqlite-vec/sqlite-vec.c:1812-1867 | The scanning loops return the token that the recursive definition gives, and a returned token strictly advances the scanner. |
| ColumnParser.NextToken | crates/cli/vendor-sqlite-vec/sqlite-vec.c:1812-1867 | A token leaves strictly less text to scan. |
| ColumnParser.Parse | crates/cli/vendor-sqlite-vec/sqlite-vec.c:2282-2413 | An accepted definition has a positive dimension, and a bit column the default metric. |
| ColumnParser.CloserUnchecked | crates/cli/vendor-sqlite-vec/sqlite-vec.c:2345-2402 | What stands in the place of the closing bracket is refused if and only if scanning the rest of the text finds no token there; any token is accepted, and then the options decide. |
| ColumnParser.OneCloserAccepted | crates/cli/vendor-sqlite-vec/sqlite-vec.c:2345-2349 | So an identifier or any symbol closes a definition that ends there. |
| ColumnParser.AuxiliaryNameCaptured | crates/cli/vendor-sqlite-vec/sqlite-vec.c:2303-2339 | A leading plus is accepted as a name: an auxiliary column definition is refused as a broken vector column if its name begins like an element type, and left to the later parsers otherwise. |
| ManifestValidation.ValidateFileDigests | crates/cli/src/manifest_validation.rs:67-81 | Validation succeeds exactly when every path lies inside the root, resolved snapshot and live digests are equal as multisets, and no diagnostic is unscoped, outside the root or on a snapshot path; it then returns the resolved digests in order. |
| ManifestValidation.ValidateDigests | crates/cli/src/manifest_validation.rs:43-55 | The same for the digests without hashes. |
| ManifestValidation.NormalizedManifestFileDigests | crates/cli/src/manifest_validation.rs:100-116 | Fails exactly when a path leaves the root, and otherwise resolves every path and sorts. |
| ManifestValidation.NormalizedManifestDigests | crates/cli/src/manifest_validation.rs:83-97 | The same for the digests without hashes. |
| ManifestValidation.NormalizedAscends | crates/cli/src/manifest_validation.rs:535-541 | The digests remembered are the snapshot's, an absolute path as it is and a relative one under the root, in ascending order of path component by component, size, time, none before any, and hash. |
| ManifestValidation.NormalizedMetadataAscends | crates/cli/src/manifest_validation.rs:162-170 | The same for the digests without hashes. |
| Ordering.CompareSeqMeans | crates/cli/src/manifest_validation.rs:162-170 | Comparing element by element, the shorter before the longer, is the lexicographic order. |
| ManifestValidation.FileDigestsOrdered | crates/cli/src/manifest_validation.rs:535-541 | The four-field ordering is total and ties only equal digests. |
| ManifestValidation.MetadataDigestsOrdered | crates/cli/src/manifest_validation.rs:162-170 | The three-field ordering is total and ties only equal digests. |
| ManifestValidation.DiagnosticsHarmless | crates/cli/src/manifest_validation.rs:129-150 | The diagnostics veto a sorted snapshot exactly when one of them is not harmless to the files listed. |
| ManifestValidation.ValidationIgnoresOrder | crates/cli/src/manifest_validation.rs:100-116 | Permuting the entries changes neither acceptance nor the resulting digests. |
| ManifestValidation.ForgettingCommutes | crates/cli/src/manifest_validation.rs:118-127 | Dropping the hashes from sorted digests gives exactly the sorted digests without hashes. |
| ManifestValidation.FreshImpliesFreshMetadata | crates/cli/src/manifest_validation.rs:67-81 | Whatever the hashing validation accepts, the one without hashes accepts. |
| ManifestValidation.HashSeesMore | crates/cli/src/manifest_validation.rs:67-81 | Not conversely: a rewrite that keeps size and time is accepted without hashes and refused with them. |
| HashAgreement.HashesDecide | crates/cli/src/manifest_validation.rs:67-81 | On a snapshot that lists no file twice, a snapshot fresh without hashes is fresh with them if and only if the hashes agree file by file. |
| Ordering.SortByUnique | crates/cli/src/manifest_validation.rs:95-115 | Sorted results are equal if and only if the inputs are equal as multisets. |
| Ordering.SortedUnique | crates/cli/src/manifest_validation.rs:95-115 | Two sorted arrangements of the same elements are one sequence. |
| ManifestCache.DirtyBlocks | crates/cli/src/manifest_validation.rs:210-298 | Over every interleaving of readers and watchers: once a root is marked dirty and until it is invalidated, no lookup on it hits or misses and no validation in flight installs an entry. |
| ManifestCache.HitIsValidated | crates/cli/src/manifest_validation.rs:350-409 | Over every interleaving, a hit for snapshot s returns exactly the resolved sorted digests of s; a reader whose own earlier validation of s for that root succeeded installed them, and the root was neither dirtied nor invalidated since. |
| ManifestCache.HitAfterDirty | crates/cli/src/manifest_validation.rs:253-282 | A hit after a dirty mark needs an invalidation and then a new installation in between. |
| DirtyMark.DirtyMarkProtectsIff | crates/cli/src/manifest_validation.rs:253-282 | For every reachable state and root: over every run after a dirty mark, whatever is served on the root was installed by a reader whose whole walk of the file system for that snapshot, from beginning to success, lies after the mark, if and only if, when the mark is made, no reader is about to store on the root and none is in the middle of a walk for a snapshot whose paths lie inside the root. |
| DirtyMark.RunKeepsFresh | crates/cli/src/manifest_validation.rs:350-409 | Once every reader that may still store began its walk after the mark, this stays so over every run, and so it is for every installation. |
| DirtyMark.CommittedServesStale | crates/cli/src/manifest_validation.rs:386-403 | Any reader that is past the beginning of such a walk at the mark has a run, invalidate, end of the walk, store, then another reader's lookup, that serves a walk begun before it. |
| ManifestCache.SlowStoreIsServed | crates/cli/src/manifest_validation.rs:397-403 | Such a state is reachable: a validation finished before a dirty mark and stored after the invalidation is served although nothing was validated since the mark. |
| ManifestCache.AnswersAreSound | crates/cli/src/manifest_validation.rs:350-441 | Every reader that answers, of whichever kind, answers the snapshot's sorted digests without hashes, and a validation of that snapshot for that root succeeded before. |
| ReaderProtocol.CachedOnlyNeverWalks | crates/cli/src/manifest_validation.rs:415-441 | Over every run, a reader begun as cached-only neither checks for dirtiness first, nor begins a walk, validates, goes stale, installs or is refused; all its events are on its own root. |
| ReaderProtocol.CachedOnlyAnswers | crates/cli/src/manifest_validation.rs:415-441 | It answers only with what a lookup of its own has served for the snapshot it has itself loaded; otherwise it has loaded none, found the root dirty or missed, answers nothing, and nothing was served to it. |
| ReaderProtocol.FullAnswers | crates/cli/src/manifest_validation.rs:350-409 | A full reader answers with what a lookup of its own has served or with what it has itself validated, stored or not; it answers nothing only when no snapshot is there, the root is dirty, or its own walk found other files. It never gives up on a miss. |
| ReaderProtocol.StoredWasWalked | crates/cli/src/manifest_validation.rs:350-409 | What a reader stores, or is refused, it found clean, loaded, missed, walked and validated itself, directly in this order and for this snapshot. |
| ReaderProtocol.NothingAfterTheEnd | crates/cli/src/manifest_validation.rs:350-409 | A call that found the root dirty, was served, went stale, stored, was refused or found no snapshot takes no further step. |
| ReaderProtocol.ReachableFollows | crates/cli/src/manifest_validation.rs:350-441 | Over every run, each reader's events follow its program, and what it is doing and has answered is what its last event says. |
| ManifestCache.OtherRootsUntouched | crates/cli/src/manifest_validation.rs:210-298 | No action changes the entry of a root it is not about. |
| ManifestCache.CountersCount | crates/cli/src/manifest_validation.rs:210-298 | Hits, misses and dirty bypasses count exactly the lookups and checks that ended so. |
| ManifestCache.ActionKeepsInv | crates/cli/src/manifest_validation.rs:350-441 | Each atomic section of each reader and of the watcher keeps the invariant that ties cache, readers in flight and history. |
| ManifestCache.RunKeepsInv | crates/cli/src/manifest_validation.rs:350-441 | The invariant holds after any interleaving. |
| ManifestCache.DirtyPersists | crates/cli/src/manifest_validation.rs:253-282 | From a dirty mark on, the history leaves the root dirty until an invalidation. |
| ManifestCache.ReadyWasInstalled | crates/cli/src/manifest_validation.rs:253-271 | A ready entry was installed and neither dirtied nor invalidated since. |
| ManifestCache.ValidatedManifestCandidateCache.LookupRoot | crates/cli/src/manifest_validation.rs:210-238 | Hit, miss with removal of another snapshot's entry, miss, or dirty, with the matching counter. |
| ManifestCache.ValidatedManifestCandidateCache.StoreValidatedShared | crates/cli/src/manifest_validation.rs:253-271 | Refused on a dirty root, otherwise installed. |
| ManifestCache.ValidatedManifestCandidateCache.BypassIfDirtyRoot | crates/cli/src/manifest_validation.rs:291-298 | Reports and counts a dirty root, changing no entry. |
| ManifestCache.ValidatedManifestCandidateCache.MarkDirtyRoot | crates/cli/src/manifest_validation.rs:277-282 | The root becomes dirty whatever it was; other roots stay. |
| ManifestCache.ValidatedManifestCandidateCache.InvalidateRoot | crates/cli/src/manifest_validation.rs:273-275 | The root's entry goes; other roots stay. |
| ManifestCache.LatestValidatedManifestSnapshot | crates/cli/src/manifest_validation.rs:350-409 | One undisturbed reader: nothing on a dirty root or without a snapshot, the cached digests for the cached snapshot, and otherwise exactly what it validates, which it leaves in the cache. |
| FifoCache.FifoCache.Insert | crates/cli/src/context_efficiency.rs:162-181 | After any history of insertions the queue is duplicate-free, equals the map's key set and holds the newest LIMIT new keys with their last values; an insertion evicts at most the single oldest key. |
| FifoCache.FifoCache.Get | crates/cli/src/context_efficiency.rs:611-613 | Answers the last value of a key that is among the newest LIMIT new keys, and nothing for any other key. |
| FifoCache.NewestDistinct | crates/cli/src/context_efficiency.rs:615-632 | Over every history, none of the newest LIMIT new keys repeats. |
| FifoCache.NewKeysInserted | crates/cli/src/context_efficiency.rs:615-632 | Every key held has a last value. |
| FifoCache.HeldForAWhile | crates/cli/src/context_efficiency.rs:615-632 | A key new to the cache is held, with its value, through fewer than LIMIT insertions of other keys. |
| FifoCache.InterleavedAnswers | crates/cli/src/context_efficiency.rs:189-209 | A cached computation that depends on the key alone, as the metadata summary of an immutable snapshot does: however the locked lookups and insertions of any number of callers interleave, every answer is what the caller's own key computes to. |
| LogCache.AnswersAreMoments | crates/cli/src/context_efficiency.rs:734-767 | While logs grow, and however callers and writers interleave, every answer is the summary of the file's contents at some moment between the caller's taking of size and time and its answer. |
| LogCache.KeyIsTaken | crates/cli/src/context_efficiency.rs:742-748 | The key a caller answers under is of the file and window it began with, and of the size the file had at the very step at which the caller took it. |
| LogCache.StoredIsFound | crates/cli/src/context_efficiency.rs:749-766 | What was stored under a key new to the cache answers every lookup under that key, without the file being read, until LIMIT insertions later. |
| LogCache.RunKeepsSound | crates/cli/src/context_efficiency.rs:734-767 | Over every run each cached summary is that of some contents the file had at or after the size it is cached under. |
| LogCache.NewerThanItsKey | crates/cli/src/context_efficiency.rs:742-766 | A log that grows between the two calls is cached, and answered, with rows beyond the size of its key. |
| FifoCache.CachedOrComputed | crates/cli/src/context_efficiency.rs:734-767 | One caller by itself, sequentially: the answer is the computed value; a key that is held inserts nothing, any other its value. |
| FifoCache.NewManifestMetadataCache | crates/cli/src/context_efficiency.rs:21-21 | An empty cache for 64 manifest summaries. |
| FifoCache.NewJsonlSummaryCache | crates/cli/src/context_efficiency.rs:22-22 | An empty cache for 32 log summaries. |
| ContextLog.MergeIsConcatenation | crates/cli/src/context_efficiency.rs:507-540 | Merging the summaries of two row lists is summarising their concatenation, in every unsigned and maximum field, despite saturation. |
| ContextLog.OrderIrrelevant | crates/cli/src/context_efficiency.rs:464-505 | Permuting the rows changes no unsigned or maximum field. |
| ContextLog.MergeIsConcatenationEntirely | crates/cli/src/context_efficiency.rs:507-540 | With no negative contribution this holds of the signed field as well. |
| ContextLog.OrderIrrelevantEntirely | crates/cli/src/context_efficiency.rs:464-505 | Nor the signed field, when no contribution is negative. |
| ContextLog.SavedMergesIff | crates/cli/src/context_efficiency.rs:507-540 | The signed field of a summary may be merged after any other rows if and only if the running totals of its own rows stay between zero and their final total and that total fits in 64 bits. |
| ContextLog.CountersAreTotals | crates/cli/src/context_efficiency.rs:464-505 | Saturating counters are the true totals cut off at the largest value. |
| ContextLog.MaximaAreLargest | crates/cli/src/context_efficiency.rs:464-505 | Each maximum field bounds its metric on every row and is attained by some row. |
| ContextLog.SavedIsTotal | crates/cli/src/context_efficiency.rs:499-505 | With no negative contribution the signed counter is the true total cut off at the largest value. |
| ContextLog.SavedExactIff | crates/cli/src/context_efficiency.rs:499-505 | The signed counter is exact after every row if and only if no running total leaves the 64-bit range. |
| ContextLog.LossAfterSaturation | crates/cli/src/context_efficiency.rs:537-539 | With a negative contribution past saturation, merging and concatenating give different totals. |
| ContextLog.ContextLogAggregate.AddRow | crates/cli/src/context_efficiency.rs:464-505 | Adding a row is merging the row's own contribution, field by field. |
| ContextLog.ContextLogAggregate.Merge | crates/cli/src/context_efficiency.rs:507-540 | Field by field saturating sum or maximum. |
| ContextLog.ReadContextLogFileSummary | crates/cli/src/context_efficiency.rs:769-801 | Only rows that parse and fall in the window count; aggregate, repository set and per-tool counts are those of exactly these rows. |
| ContextLog.CountedLines | crates/cli/src/context_efficiency.rs:780-793 | A line counts exactly when it parses, has a timestamp that parses, and lies in the window, both ends included; the counted rows are those lines' rows, each once, in order. |
| ContextLog.SummarizeContextLogFile | crates/cli/src/context_efficiency.rs:734-741 | A missing file has the summary of no rows, any other file that of its counted rows. |
| ContextLog.SummarizeContextLogsForRoots | crates/cli/src/context_efficiency.rs:712-732 | One summary per root, in order, each of exactly its own counted rows, and totals that summarise the rows of all roots together, the signed field included when no contribution is negative. |

## Left out

- SQLite itself: SQL text, prepared statements, blob handles, mutexes, out-of-memory paths and savepoints; shadow tables are maps and sequences, and rollback restores the former state.
- Floating-point distances, cosine, normalisation and int8 quantisation: a query carries an arbitrary real-valued distance, so rounding and NaN are not modelled. `distance_hamming` is proved as an integer count; its cast to a 32-bit float is exact below 2^24.
- AVX and NEON kernels, the NumPy and static blob table functions: not part of the built extension.
- Text primary keys and auxiliary columns: a second key map and a side table without a new argument; auxiliary constraints appear in `Plan` only because they refuse a query.
- Text targets on columns of numbers and numbers on text columns: numbers and NULL are read by the column's type as the code reads them, text is not parsed as a number nor numbers written as text. Integers become reals exactly, and distance targets are not narrowed to 32-bit floats.
- The sort of the rowid list: `RowidSearch` models the search and its narrowing comparison exactly, but the list is given, and the narrowing inside the sort itself is not modelled. A sorted list with differences below 2^31 is the condition for exactness.
- Separate shadow tables of a chunk: validity, rowids, vector chunks and metadata chunks form one record, so size mismatches between them, which the code reports as corruption, cannot occur.
- The full-scan and point-query cursors beyond their plans, and the statement to drop or rename a table.
- EndToEnd.QueryAfterRun: assumes that every comparison the query makes is decided exactly, which `FilterExactness` and `RowidSearch` characterise and `EndToEnd.OrdinaryQueryAfterRun` proves of ordinary comparisons; outside that condition `Knn.KnnChunks`, `KnnRows.ScanFailsIff` and `Vec0Table.Vec0Table.QueryKnn` state what the code answers.
- FilterExactness.OrderedExactIff: for text without zero bytes; with embedded zero bytes the ordered operators are modelled exactly but not characterised.
- Vec0Table.Vec0Table.WriteMetadataValue: does not state the state after an error, because a statement then rolls back; `Vec0Table.Vec0Table.Insert` and `Vec0Table.Vec0Table.Update` state that nothing changed.
- Update steps that succeed before a later one fails are undone as a whole; partial states are not visible.
- The constructor's cascade over its arguments: `ColumnParser` covers the vector column parser alone. Values beyond the range of a C int in `atoi` are undefined in C and unbounded in the model; table creation rejects dimensions above 8192.
- ManifestCache.HitIsValidated: readers load any published snapshot instead of a repository's latest, published snapshots are immutable, and storage errors end a reader like a missing snapshot. Counters are unbounded.
- File-system walks, hashing and Windows path prefixes: a walk has a beginning and an end and reports an arbitrary list of digests and diagnostics; a path is its components, without `.` and `..`.
- LogCache.AnswersAreMoments: log files only grow, as their writers append; one that is truncated or rewritten to a former size and time is not modelled.
- Date and JSON parsing and input errors of log files: a line is an already parsed row with an optional timestamp; `usize` is 64 bits wide.
- Byte totals over returned unique paths, command-line parsing, HTTP serving, the watch scheduler, hybrid ranking and rank fusion: no new state or argument.
