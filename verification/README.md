# KronosDB in Dafny

KronosDB is a log-structured merge storage engine for market events, keyed by (symbol, timestamp, sequence).
This project models its storage path, from the bytes of one record to what a query answers after a whole run, and proves
that the layers do what their callers rely on. `dafny verify dfyconfig.toml` checks everything.

The layers, bottom up, one module per file:

- **Bytes and checksums**: `bytes`, `core` (key order, key and event codecs), `crc32c` (the table loop, the bit-serial
  division it computes, seed chaining, and detection of every change within four consecutive bytes), `formats` (where
  every field of every format lies, in plain numbers, and exactly what readers refuse).
- **Write-ahead log**: `wal` (record format, segment reader, writer object) and `wal_runs` (runs of appends, crashes that
  cut the last segment at any byte, and recoveries, including ones that die between truncating and rotating).
- **Memory**: `skiplist` (the linked structure on the heap), `skiplist_steps` (the same structure as a machine in which
  every store of the writer and every load of a reader is a step of its own), `memtable`, `recovery`, `arena`.
- **Tables**: `block`, `index`, `bloom` and `bloom_hashes` (what the hashes compute over the integers), `table_format`
  (packing, file layout, opening), `sstable` (scans and lookups of written files), `sstable_io` (writer and reader
  objects, reading through a cache), `block_cache`.
- **Compaction**: `compaction` (sort, newest version per key, tombstones), `compaction_run` (gathering, rotation, the whole
  run over files), `paths` (file names).
- **Database**: `db_model` (the state and its steps), `db_runs`, `db_answers` and `db_deletes` (what queries answer),
  `db_names` (when compaction output names repeat), `db_tables`, `db_query`, `db_compact`, `db_open` and `db` (the
  database object over disk, levels, cache and log, which refines the model step by step), `db_reopen` (what a crash or
  a close leaves and what opening makes of it).
- **Support**: `symbol_table`, `histogram`, `events` (sorted runs, ranges, stopping callbacks), `wrappers`.

How the pieces meet: the skip list refines a map, the memtable a sorted run under upserts; the table reader's scan of a
written file equals filtering the run that was written, whatever the cache; compaction of such files equals applying
their runs in order; the database object rests on these contracts, and the run theorems are proved of the model it
refines.

## Where the code does less than its comments say

The model follows the code. Each of these names the lemmas that say so:

- `torn_bytes` counts a rejected tail twice (`Wal.TornBytesCount`).
- A bloom filter of more than 2^32-8 bits has no bytes at all, because its size is computed in 32 bits
  (`Bloom.PositionsHaveBytes`).
- A tombstone hides only versions that meet it in one memtable or in one compaction of level 0; no compaction reads
  level 1. `DBDeletes.ShownIff` is the exact condition after every run, `CompactionShows` for one compaction of any state
  and `StillVisibleIff` for the moment after a remove from any state; `RemovedAfterFlushIsSeen` and `RemovedStaysForGood`
  are instances, `DeletedIsGone` the case in which deletion works.
- A compaction spends one sequence number but names a file after each of several, so a later compaction can write over
  a live table. `DBNames.CollidesExactly` is the exact condition in any state and `CollidesIff` in those reached without
  reopening; `CollisionReachable` is a run that gets there, `OverwrittenAreLost`, `DBCompact.SharedName` and
  `OverwrittenScans` say what is damaged. `DBs.DB.CompactNow` promises the model's step when there is no collision, and
  the overwritten file when there is.
- The log is never trimmed when events reach a table, so an event that is in a table and in the log comes back twice
  after reopening (`DBReopens.CrashReturns`, `ReopenReturnsTwice`); and the table counter starts again at 1, so the next
  flush can overwrite a listed level-0 table (`OverwritesIff`, `FlushAfterReopenOverwrites`) and the next compaction a
  listed level-1 table, even when every compaction writes one file (`ReopenedCollidesIff`,
  `CompactionAfterReopenCollides`).
- After reopening, the next sequence id follows the last record of the log. A remove logs the id of the event it deletes,
  so the next id can be one in use, and an append can then replace a live event (`DBReopens.NextUnusedIff`,
  `RemoveThenReopenReplaces`).
- A name appended to a symbol file with a torn tail is lost: `SymbolTables.EveryAppendLoadsIff` and `CutCleanIff` are the
  exact conditions, `TornTailSwallows` an instance, `FlushRepairs` the way out.

Where code and comment merely differ, the model takes the code: the table header's comment gives the footer 48 bytes,
the code writes and reads 56 (`TableFormat.FOOTER_SIZE`), and the reader never looks at the version field.

## Model

| member | source | states |
|---|---|---|
| SkipLists.SkipList.FindPrev | include/kronosdb/storage/skiplist.hpp:124-139 | returns the true predecessor of the target at every level up to the maximum height, bottom last; the walk ends by the measure (level, nodes ahead) |
| SkipLists.SkipList.FindFirstGe | include/kronosdb/storage/skiplist.hpp:141-154 | returns the node of the least key not below the target, or null when there is none |
| SkipLists.SkipList.Insert | include/kronosdb/storage/skiplist.hpp:166-191 | for any height in 1..12 the list stays valid and its entries become the old ones with the key's value put in place; the counter is the number of entries |
| SkipLists.PutIsMapUpdate | include/kronosdb/storage/skiplist.hpp:30-34 | the positional put is the map update `old[k := v]`, and the count grows by one exactly when the key was absent |
| SkipLists.SkipList.Contains | include/kronosdb/storage/skiplist.hpp:193-197 | true exactly when the map has the key |
| SkipLists.SkipList.Seek | include/kronosdb/storage/skiplist.hpp:56-58 | positions the iterator on the entry of the key's rank, or on the end |
| SkipLists.SkipList.Next | include/kronosdb/storage/skiplist.hpp:60-63 | moves from one entry to the next in key order |
| SkipListSteps.LevelsStayOrdered | include/kronosdb/storage/skiplist.hpp:126-191 | in every state of every interleaving of insertion stores and reader loads, each level chain ends, is strictly ascending and is contained in the level below |
| SkipListSteps.SeekIsExact | include/kronosdb/storage/skiplist.hpp:141-154 | a reader's search, interleaved with any writer steps, ends on exactly the least key not below its target among those linked at level 0 at its last load |
| SkipListSteps.ScanIsFaithful | include/kronosdb/storage/skiplist.hpp:42-68 | what a scanning reader has been shown is ascending and was really inserted, and no key present when its seek ended that it has passed is missing |
| SkipListSteps.CountIsExact | include/kronosdb/storage/skiplist.hpp:166-191 | between insertions the counter equals the number of keys on level 0 |
| SkipListSteps.HoldsLatest | include/kronosdb/storage/skiplist.hpp:166-191 | in every state each node on level 0 holds the value last inserted under its key, and between insertions the keys on level 0 are exactly those ever inserted |
| SkipListSteps.WriterNeverStuck | include/kronosdb/storage/skiplist.hpp:166-191 | in every reachable state an idle writer can begin inserting any key at any height, and a busy one can take its next step: every pointer it is about to follow exists |
| SkipListSteps.ReaderNeverStuck | include/kronosdb/storage/skiplist.hpp:42-68 | in every reachable state a reader in the middle of a search or scan can take its next load |
| MemTables.MemTable.Insert | src/storage/memtable.cpp:9-25 | the memtable's sorted run becomes the old one with the event upserted under its key, and the tracked first and last key stay exact |
| MemTables.PutIsUpsert | src/storage/memtable.cpp:9-25 | the list's positional update is replacement by key on sorted runs |
| MemTables.MemTable.Scan | src/storage/memtable.cpp:27-37 | feeds the callback exactly the events in the inclusive range, in key order, until it asks to stop |
| MemTables.MemTable.ToSortedEvents | src/storage/memtable.cpp:39-49 | returns all events in key order |
| MemTables.MemTable.MinKey | src/storage/memtable.cpp:51-55 | the first event's key, or the zero key when empty |
| MemTables.MemTable.MaxKey | src/storage/memtable.cpp:57-61 | the last event's key, or the zero key when empty |
| Events.UpsertMember | src/storage/memtable.cpp:9-25 | after an upsert a run holds the new event and every old event of another key |
| Recoveries.Recover | src/db/recovery.cpp:6-35 | replays the log into a memtable: its run becomes the old one overlaid with the replayed events in log order, whatever heights are drawn |
| Core.KeyRoundTrip | include/kronosdb/core/key.hpp:22-73 | decoding an encoded key gives the key back |
| Core.KeyBytesOrder | include/kronosdb/core/key.hpp:16-45 | encoded keys compare byte by byte exactly as keys compare |
| Core.EventRoundTrip | src/core/event.cpp:23-55 | decoding an encoded event gives the event back, for all signed and unsigned field values |
| Formats.EventLayout | src/core/event.cpp:23-45 | every field of an event stands at its place in the 65 bytes, lowest byte first, signed ones in two's complement |
| Formats.KeyLayout | include/kronosdb/core/key.hpp:22-46 | every field of a key stands at its place in the 20 bytes, highest byte first |
| Formats.TwosComplement | src/core/event.cpp:29-31 | a signed value and its unsigned image differ by 0 or 2^64, and the casts undo each other |
| Core.WriteLE | src/core/event.cpp:8-13 | writes the little-endian bytes at the offset, moves the pointer behind them and touches nothing else |
| Core.ReadLE | src/core/event.cpp:14-20 | computes the little-endian value of the bytes |
| Core.Encode | src/core/event.cpp:23-38 | the eleven writes through the moving pointer give the 65-byte encoding |
| Bytes.LittleEndianRoundTrip | src/core/event.cpp:8-20 | a value in range survives little-endian encoding and decoding |
| Bytes.BigEndianOrder | include/kronosdb/core/key.hpp:21-45 | big-endian encoding turns numeric order into byte order |
| Crc32c.BuildTable | include/kronosdb/util/crc32c.hpp:19-31 | entry i of the table is eight bit-serial steps from i |
| Crc32c.Compute | include/kronosdb/util/crc32c.hpp:35-41 | the table-driven loop computes the bit-serial checksum of the data from the seed |
| Crc32c.CrcChaining | include/kronosdb/util/crc32c.hpp:35-41 | the checksum of a concatenation is the checksum of the second part seeded with that of the first |
| Crc32c.RegisterIsLongDivision | include/kronosdb/util/crc32c.hpp:19-41 | absorbing a message leaves the remainder of reflected polynomial long division |
| Crc32c.CrcIsPolynomialRemainder | include/kronosdb/util/crc32c.hpp:35-41 | an unseeded checksum is the complement of the remainder of the message with its first 32 bits complemented |
| Crc32c.GeneratorIsCastagnoli | include/kronosdb/util/crc32c.hpp:25 | the constant, mirrored, is the Castagnoli generator 0x1EDC6F41 of section 12.1 of RFC 3720 |
| Crc32c.BurstDetected | include/kronosdb/util/crc32c.hpp:35-41 | changing at most four consecutive bytes, and nothing else, always changes the checksum |
| Wal.WalCrcIsOneStream | src/storage/wal.cpp:32-37 | the two chained calls give the checksum of version, length and payload as one stream |
| Wal.WholeRecordTurn | src/storage/wal.cpp:195-251 | where the 78 bytes of a record stand, one turn of the reading loop consumes exactly them and yields the event that was written |
| Wal.TornRecordTurn | src/storage/wal.cpp:205-223 | where the file ends inside a record, the turn consumes nothing |
| Formats.ConsumedIff | src/storage/wal.cpp:195-251 | a record is consumed if and only if its header is complete, begins with the bytes 4E 4F 52 4B and version 1, claims a length that ends inside the file and carries the checksum of version, length and payload; it yields an event if and only if the length is 65 |
| Formats.RecordLayout | src/storage/wal.cpp:100-118 | a record is the letters, the version, the length 65, the checksum and the event, each at its place |
| Wal.CorruptPayloadTurn | src/storage/wal.cpp:225-238 | a record whose payload was changed within four consecutive bytes is rejected by the turn that meets it |
| Wal.ReadSegment | src/storage/wal.cpp:180-263 | the loop computes the records, clean end, torn flag and torn byte count of the segment's specification |
| Wal.ReadAll | src/storage/wal.cpp:160-178 | segments are read in id order; records and torn bytes add up and the clean end is the last segment's |
| Wal.ReadTornSegment | src/storage/wal.cpp:180-263 | a segment of whole records followed by part of one reads back as exactly its whole records with the offsets of append, clean end 78*floor(len/78), torn iff 78 does not divide the length |
| Wal.TornBytesCount | src/storage/wal.cpp:205-237 | the reported torn bytes are twice the true tail exactly when a full header is left behind the clean end, and the true tail otherwise |
| Wal.CutSegment | src/storage/wal.cpp:180-263 | cutting a segment at any byte keeps exactly the records that lie wholly before the cut |
| Wal.PayloadCorruptionDetected | src/storage/wal.cpp:225-238 | corruption within four consecutive payload bytes is detected: replay yields exactly the records before it, with the clean end at its offset |
| Wal.Writer.Append | src/storage/wal.cpp:100-135 | appends the 78-byte record to the open segment, rotates after the write at the size limit, and reports the record's own offset and segment |
| Wal.AppendLeaves | src/storage/wal.cpp:100-135 | an append changes the open segment only, by the record, and opens the next one exactly when the segment has then reached the limit |
| Wal.Writer.Seal | src/storage/wal.cpp:83-98 | cuts the open segment at the clean end when that lies before its end, then opens the next segment |
| Wal.SealLeaves | src/storage/wal.cpp:83-98 | sealing cuts the open segment at the clean end, leaves all others alone and opens the next one |
| Wal.Writer.RotateSegment | src/storage/wal.cpp:77-81 | opens the next segment id |
| Wal.Writer.constructor | src/storage/wal.cpp:49-63 | opens the highest existing segment, or segment 1 in an empty directory |
| Recoveries.OpenLog | src/db/db.cpp:57-83 | the log's part of opening: replay into the memtable in log order, the next sequence id one above the last record's, and a writer that was truncated and sealed exactly when the tail was torn |
| WalRuns.RunMatches | src/storage/wal.cpp:67-135 | over any run of appends, crashes cutting the last segment at any byte, and recoveries (also ones dying between truncate and rotate), every segment but the last holds whole records only |
| WalRuns.ReplayIsSurvivors | src/storage/wal.cpp:160-178 | after any such run, replay is exactly the surviving records of all segments in append order with their offsets |
| WalRuns.AppendIsNeverHidden | src/db/db.cpp:74-79 | in any reachable running state an append adds exactly its record to the replay: nothing is ever hidden behind torn bytes |
| WalRuns.ReopenKeepsReplay | src/db/db.cpp:57-83 | reopening, finished or cut short, loses no surviving record and leaves no torn tail |
| WalRuns.CrashKeepsWholeRecords | src/storage/wal.cpp:180-263 | a crash keeps every record outside the last segment and, in it, exactly those wholly before the cut |
| Blocks.Decode | src/table/block.cpp:74-107 | size, claimed size and checksum are checked in this order; a block that passes yields its events and bounds |
| Blocks.BlockBuilder.Add | src/table/block.cpp:24-31 | takes an event exactly when the block is empty or stays within the target |
| Blocks.BlockBuilder.Finish | src/table/block.cpp:33-68 | serialises count, events, least and greatest key and checksum; an empty builder gives no bytes |
| Blocks.BlockBuilder.FindBounds | src/table/block.cpp:36-42 | the bounds are the least and greatest key whatever the order of the events |
| Blocks.BlockRoundTrip | src/table/block.cpp:33-107 | what is written is what is read, whatever bytes follow the block |
| Blocks.BlockCorruptionDetected | src/table/block.cpp:86-90 | a change within four consecutive bytes behind the count makes decoding fail |
| Formats.BlockLayout | src/table/block.cpp:30-66 | count, events, least key, greatest key and the checksum of all of these stand at their places |
| Formats.BlockRefusedIff | src/table/block.cpp:72-88 | a block is accepted if and only if it is as long as its count claims and carries the checksum of what precedes it |
| Blocks.ScanBlock | src/table/block.cpp:109-117 | feeds the callback what the scan reaches, in order, until it stops |
| Blocks.ReachedIsInRange | src/table/block.cpp:109-117 | on a sorted block, stopping at the first key above the range loses nothing |
| Indexes.IndexBlock.FindFirstBlock | src/table/index.cpp:30-40 | the binary search returns the last entry not above the key, or the first entry; none exactly for an empty index |
| Indexes.IndexBlock.BlocksInRange | src/table/index.cpp:42-63 | returns the consecutive blocks from the start entry on that do not begin above the end |
| Indexes.IndexBlock.Encode | src/table/index.cpp:65-77 | the loop writes the count and 32 bytes per entry |
| Indexes.Decode | src/table/index.cpp:79-97 | rejects short data and otherwise returns the claimed number of entries |
| Indexes.IndexRoundTrip | src/table/index.cpp:65-97 | an encoded index of fewer than 2^32 entries decodes to itself |
| Formats.IndexLayout | src/table/index.cpp:65-95 | the count, and first key, offset and size of every block, stand at their places |
| Formats.IndexRefusedIff | src/table/index.cpp:78-95 | an index is refused if and only if the count or an entry is missing |
| Bloom.HashFnv1a | src/table/bloom_filter.cpp:38-45 | the loop computes the 32-bit FNV-1a hash, whose steps `BloomHashes.FnvStep` gives over the integers |
| Bloom.HashMurmurMix | src/table/bloom_filter.cpp:47-56 | the loop computes the mixing hash, whose steps `BloomHashes.MurmurStep` gives over the integers |
| Bloom.SetThenGet | src/table/bloom_filter.cpp:58-64 | setting a bit sets that bit and no other |
| Bloom.PositionsHaveBytes | src/table/bloom_filter.cpp:35 | all bit positions have a byte if and only if m <= 2^32-8; for larger m the 32-bit size computation wraps |
| Bloom.BloomFilter.Add | src/table/bloom_filter.cpp:66-72 | sets exactly the k probed bits |
| Bloom.Test | src/table/bloom_filter.cpp:74-81 | true exactly when all probed bits are set (always for the empty filter); every access is in bounds |
| BloomHashes.FnvStep | src/table/bloom_filter.cpp:38-45 | the hash of no bytes is 2166136261, and each byte is xored in bit by bit and multiplies by 16777619 modulo 2^32 |
| BloomHashes.FnvSeparates | src/table/bloom_filter.cpp:38-45 | keys of one length that differ in their last byte only never share this hash |
| BloomHashes.FnvStaysApart | src/table/bloom_filter.cpp:38-45 | equal bytes behind them never bring two different hashes together |
| BloomHashes.MurmurStep | src/table/bloom_filter.cpp:47-56 | the other hash starts from 0xDEADBEEF, and each byte is xored in, folded and multiplied twice by 0x45d9f3b modulo 2^32, and folded |
| BloomHashes.MixByteInjective | src/table/bloom_filter.cpp:47-56 | one round of the other hash is injective in the state and in the byte |
| BloomHashes.AbsentIsRefused | src/table/bloom_filter.cpp:58-81 | a filter of 64 bits and two hashes that holds the key "a" has exactly bits 44 and 52 set and refuses the key "b" |
| Bloom.NoFalseNegatives | src/table/bloom_filter.cpp:58-81 | an added key is found, and adding a key loses no key that was found |
| Bloom.FilterRoundTrip | src/table/bloom_filter.cpp:83-104 | an encoded filter decodes to itself |
| Formats.FilterRefusedIff | src/table/bloom_filter.cpp:93-105 | a filter is refused if and only if its header or a byte of its bits is missing, the byte count being a 32-bit sum |
| Caches.BlockCache.Get | src/util/block_cache.cpp:15-27 | a hit returns the cached bytes and moves the entry to the front, the others keeping their order; a miss changes nothing; index and list keep the same duplicate-free keys and the byte count stays exact and bounded |
| Caches.BlockCache.Put | src/util/block_cache.cpp:29-48 | replaces the key's entry, puts the new one in front and keeps the prefix that fits |
| Caches.BlockCache.Evict | src/util/block_cache.cpp:50-62 | removes exactly the entries of the file, keeping order and the exact byte count |
| Caches.BlockCache.EvictLru | src/util/block_cache.cpp:64-70 | drops the last entry from list, index and byte count |
| Caches.FitIsLongest | src/util/block_cache.cpp:46-47 | what survives is the longest most recently used prefix that fits the bound |
| Caches.HitIsLastPut | src/util/block_cache.cpp:15-62 | over any run of gets, puts and evictions, a cached entry holds the bytes last put under its key since its file was last evicted |
| Caches.RecencyOrder | src/util/block_cache.cpp:15-70 | after any run of gets, puts and evictions the entries stand in strictly descending order of last use, a use being a put or a get that finds the key |
| TableFormat.PackJoins | src/table/sstable.cpp:101-119 | packing events into blocks loses, adds and reorders nothing |
| TableFormat.PackIsGreedy | src/table/block.cpp:24-31 | a block exceeds the target only by holding a single event, and is closed only when full |
| TableFormat.MetaRoundTrip | src/table/sstable.cpp:32-56 | an encoded meta block decodes to itself |
| TableFormat.FooterRoundTrip | src/table/sstable.cpp:149-158 | an encoded footer decodes to itself |
| Formats.FooterLayout | src/table/sstable.cpp:145-165 | offsets and sizes of the three sections, the bytes 54 53 53 4B and the version 2 stand at their places |
| Formats.FooterRefusedIff | src/table/sstable.cpp:198-202 | a footer is refused if and only if those four bytes are damaged; the version is not looked at |
| Formats.OpensIff | src/table/sstable.cpp:188-239 | with an intact footer a table opens if and only if its three sections lie within the file, in 64-bit sums, can be read and decode |
| Formats.FooterNeeded | src/table/sstable.cpp:188-202 | without an intact footer nothing opens |
| Formats.FileLayout | src/table/sstable.cpp:121-170 | a written file is its blocks, the filter, the index, the meta block and a footer that says where they lie |
| Formats.MetaLayout | src/table/sstable.cpp:33-45 | every field of the meta block stands at its place |
| TableFormat.WrittenOpens | src/table/sstable.cpp:183-240 | every written file that fits its field widths opens, to exactly the index, filter and meta that went into it |
| TableFormat.FitsWhenSmall | src/table/sstable.cpp:91-168 | fewer than 2^32 events with a block target below 2^32 bytes always fit the field widths |
| SSTables.BlockReadBack | src/table/sstable.cpp:242-261 | every block is read back through its index entry as it was packed |
| SSTables.ScanIsInRange | src/table/sstable.cpp:291-309 | for every sorted run, block target, range and callback, scanning the written bytes feeds exactly the events in range in order, up to where the callback stops |
| SSTables.OneWastedBlock | src/table/index.cpp:42-63 | of the blocks a scan selects, all but the first begin with an event in range, so at most one decoded block holds none |
| SSTables.RuledOut | src/table/sstable.cpp:263-272 | a table is ruled out only when it holds nothing in range |
| SSTables.RefusedUnread | src/table/sstable.cpp:263-311 | whatever the blocks hold, a scan reads none of them if and only if the range misses the key bounds or is a single key of which the filter lacks a bit |
| SSTables.GetIsExact | src/table/sstable.cpp:274-289 | a point lookup finds an event if and only if one was written under the key, and finds that event |
| TableIO.SSTableWriter.Add | src/table/sstable.cpp:101-119 | filter, bounds, count, open block, finished blocks and index describe the events added so far with the new one at the end |
| TableIO.SSTableWriter.FlushBlock | src/table/sstable.cpp:91-99 | appends the open block to the file and its first key, offset and size to the index; an empty block changes nothing |
| TableIO.SSTableWriter.Finish | src/table/sstable.cpp:121-168 | the file on disk and the returned meta are determined by the writer's parameters and the events added |
| TableIO.SSTableReader.LoadFooterAndIndex | src/table/sstable.cpp:183-240 | succeeds exactly when the file opens, and then holds its meta, index and filter |
| TableIO.SSTableReader.ReadBlockAt | src/table/sstable.cpp:242-261 | through any coherent cache, or none, the block is the one decoded from the file, and the cache stays coherent |
| TableIO.SSTableReader.ScanRange | src/table/sstable.cpp:291-309 | the result is that of scanning the selected blocks of the file, independent of the cache |
| TableIO.SSTableReader.Get | src/table/sstable.cpp:274-289 | the result is that of the filter test and a single-key scan, independent of the cache |
| TableIO.WrittenRegular | src/table/sstable.cpp:91-99 | no two blocks of a written table share an offset, which is what keeps cached blocks unambiguous |
| Compactions.SortOrders | src/db/compaction.cpp:55-59 | the sort gives an ordered permutation |
| Compactions.DedupSorted | src/db/compaction.cpp:61-69 | deduplicating leaves strictly ascending keys |
| Compactions.NewestPerKey | src/db/compaction.cpp:50-69 | for every key exactly the version of the newest input survives; of equally new inputs the earliest listed wins |
| Compactions.MergedMembers | src/db/compaction.cpp:71-81 | and tombstones are dropped exactly when the target level is 3 or more |
| Compactions.MergedSorted | src/db/compaction.cpp:55-81 | the output is strictly ascending |
| Compactions.VersionsAreReplay | src/db/compaction.cpp:50-69 | with ascending sequences the merge equals applying the inputs as maps, oldest first |
| Compactions.OrderIrrelevant | src/db/compaction.cpp:55-59 | with distinct sequences the order in which the inputs are listed does not matter |
| CompactionRuns.RotatesAtPerFile | src/db/compaction.cpp:107-118 | the rotation test looks at every thousandth record and takes 105 percent of 65 bytes for each; the running count first passes it at exactly 1000*max(1, ceil(target/68250)) records |
| CompactionRuns.ChunkSizes | src/db/compaction.cpp:99-123 | the output files together are the merged events in order, and every one but the last holds exactly that many |
| CompactionRuns.ChunksAscend | src/db/compaction.cpp:99-123 | output files hold ascending, disjoint stretches of keys |
| CompactionRuns.Gather | src/db/compaction.cpp:37-48 | collects all events of all inputs with their table's sequence; fails exactly when a file is missing, does not open, or has a block that a scan of everything reaches and cannot read |
| CompactionRuns.DedupLoop | src/db/compaction.cpp:61-69 | the neighbour-comparing loop computes the deduplication |
| CompactionRuns.RemoveTombstones | src/db/compaction.cpp:74-81 | the loop removes exactly the tombstones |
| CompactionRuns.WriteOutputs | src/db/compaction.cpp:85-123 | writes the chunks to consecutive names and sequences and lists them; the disk gains exactly those files |
| CompactionRuns.Run | src/db/compaction.cpp:7-141 | from tables as written: outputs, disk and statistics (raw and deduplicated counts, file and byte totals) are those of the merge; it fails exactly when an input cannot be read, and then leaves the disk alone |
| CompactionRuns.TotalSizeAdds | src/db/compaction.cpp:45-122 | the byte totals count every input and output with its size |
| DBModel.RangeIsSymbolAndTime | src/db/db.cpp:252-254 | the scanned key range with the row filter is the symbol, the inclusive time range and the type |
| DBModel.MergeKeepsAll | src/db/compaction.cpp:50-69 | merging tables that share no key loses nothing and duplicates nothing |
| DBRuns.InternFine | src/util/symbol_table.cpp:19-29 | ids count up from 1, stay injective and never change for a known name |
| DBRuns.AppendedExactlyOnce | src/db/db.cpp:130-328 | in the model's run, which tells tables apart by position and not by file name: after any appends, flushes and compactions the sources hold each matching appended event exactly once |
| DBAnswers.AppendsReturned | src/db/db.cpp:130-328 | the same in terms of the operations: what a query would return without a limit are the events of the appends asked for, each once and nothing else, with the caller's fields under the next sequence id |
| DBAnswers.AnswerIsFirst | src/db/db.cpp:235-328 | in any state the answer is made of the first events with the symbol, an inclusive time and a wanted type, as they stand in the active memtable, the immutable ones, level 0 and level 1, up to the limit |
| DBAnswers.TypesAreReturned | include/kronosdb/core/event.hpp:12-19 | events of the types 0 to 4 are returned when asked for and the limit leaves room |
| DBs.DB.PerformAndQuery | src/db/db.cpp:130-328 | on the database object with its files, cache and names, from fresh and without an output name collision: after an append-only run the rows are the first of the events of exactly those appends that have the symbol, a time in the inclusive range and a type other than 0xFF, the one asked for if there is one; each once, with the fields that were appended, and as many as there are up to the limit, which is 1000 when none is given |
| DBReopens.CrashKeepsPrefix | src/storage/wal.cpp:180-263 | after a crash at any byte of the last segment, replay returns everything logged up to the first record that the cut reaches |
| DBReopens.SurvivingLog | src/db/db.cpp:57-72 | what a crash of the database object leaves of its log is a prefix of all it wrote |
| DBReopens.WalIsWrites | src/db/db.cpp:157-159 | the log holds every append and remove of the run, in order; flushes and compactions never shorten it |
| DBOpens.DirectoriesAreLevels | src/db/db.cpp:39-55 | without a name collision each level directory holds exactly the tables that its level lists, and the deeper ones none |
| DBOpens.LoadLevel | src/db/db.cpp:42-55 | reading a directory in any order finds exactly the tables that the level lists, each with the meta and size that were listed |
| DBs.DB.Open | src/db/db.cpp:22-83 | opening the files of a closed or crashed database: the object's state is the reopened one, with the tables found in the directories, every level in the order of its sequences, and the replayed log; its log is open behind the last whole record, and queries and writes work on it; flushes and compactions too when level 0 lists nothing |
| DBReopens.Reopen | src/db/db.cpp:22-83 | opening what a crash of a database object leaves: the new object's state is the reopened one of the old object's, with a prefix of its log |
| DBReopens.ReopenedShows | src/db/db.cpp:30-83 | a reopened state, which is the one `DBs.DB.Open` gives, shows what the tables hold and, once more, the overlay of the replayed log, in whatever order the directories list the tables |
| DBReopens.CrashReturns | src/db/db.cpp:30-83 | after an append-only run and a crash that leaves any prefix of the log, a matching event is shown once for being in a table and once for being in the prefix; in neither, it is lost |
| DBReopens.ReopenAndQuery | src/db/db.cpp:22-328 | on the objects: a database that performed an append-only run is cut at any byte of its log, opened and queried, and the rows are the first ones among the matching events, each as often as it is in a table or in the surviving log |
| DBReopens.ReopenReturnsTwice | src/db/db.cpp:91-128 | closing flushes everything and opening replays everything: every matching event comes back exactly twice |
| DBReopens.OverwritesIff | src/db/db.cpp:400-415 | after reopening, with the table counter back at 1, the next flush overwrites a listed level-0 table if and only if level 0 lists a sequence among the first so many as there are memtables to flush |
| DBReopens.FlushAfterReopenOverwrites | src/db/db.cpp:400-415 | append, flush, reopen: the next flush overwrites the table of the first |
| DBReopens.ReopenedCollidesIff | src/db/compaction.cpp:87-103 | after reopening and a flush, the next compaction writes over a listed level-1 table if and only if level 1 lists one of the sequences that follow those of the flush |
| DBReopens.CompactionAfterReopenCollides | src/db/compaction.cpp:87-103 | append, flush, compact, reopen, flush: the next compaction overwrites the table of the first, although each writes a single file |
| DBReopens.NextUnusedIff | src/db/db.cpp:70-72 | after reopening, the next sequence id is above every id in the log if and only if the last record carries the greatest one and the addition does not wrap |
| DBReopens.UnusedIdAdds | src/db/db.cpp:130-168 | in that case an append to the reopened database replaces no event in memory |
| DBReopens.AppendOnlyNext | src/db/db.cpp:70-72 | without removes it is always the case: the next id is one above the number of surviving records |
| DBReopens.RemoveThenReopenReplaces | src/db/db.cpp:70-72 | append twice, remove the first event, reopen: the next append gets the id of the second event and, with the same time, replaces it |
| DBDeletes.OverlayIsLast | src/db/db.cpp:204-207 | applying writes as upserts keeps exactly the last write of every key |
| DBDeletes.LayersPartition | src/db/db.cpp:371-488 | rotations, flushes and compactions cut the writes of a run into layers, which together are all the writes in order |
| DBDeletes.RunLayered | src/db/db.cpp:371-488 | in every run the active memtable, each immutable one and each level-0 table replay their own layer of writes, and level 1 holds exactly what each settled layer left |
| DBDeletes.CompactionShows | src/db/db.cpp:453-488 | after a compaction of any state with ascending level 0, a query shows of level 0 the newest version of each key and of memory and level 1 all that was there: a tombstone hides nothing outside level 0 |
| DBDeletes.ShownIff | src/db/db.cpp:196-328 | after every run an event is shown if and only if it matches and is the last write of its key in the open layer, in a closed one, in a table's or in one that a compaction merged |
| DBDeletes.ShownOnceCompacted | src/db/db.cpp:196-328 | after any run, a flush and a compaction, an event is shown if and only if it matches and is the last write of its key in some stretch between compactions |
| DBDeletes.CompactedIsLastWrites | src/db/db.cpp:371-488 | from an empty level 1, flushing everything and compacting once leaves the last write of every key, in key order |
| DBDeletes.DeletedIsGone | src/db/db.cpp:196-328 | from an empty level 1, after any appends, removes and flushes, one flush and one compaction, a query shows a key exactly when its last write was not a remove, with that last value |
| DBDeletes.RemovedStaysForGood | src/db/db.cpp:453-488 | append, flush, compact, remove, flush, compact: the removed event is still shown |
| DBDeletes.StillVisibleIff | src/db/db.cpp:204-207 | right after a remove, the key is still returned if and only if an immutable memtable or a table holds a live matching version of it |
| DBDeletes.RemovedAfterFlushIsSeen | src/db/db.cpp:196-233 | append, flush, remove: the removed event is still returned |
| DBNames.CollidesExactly | src/db/compaction.cpp:87-103 | in any state, reopened or not, the next compaction writes over a table that level 1 still lists if and only if level 1 lists one of the sequences that its outputs get |
| DBNames.CollidesIff | src/db/compaction.cpp:87-103 | in any state reached from fresh without reopening this is so if and only if the compaction writes something and level 1 lists a sequence not yet handed out |
| DBNames.ThreeFilesCollide | src/db/compaction.cpp:99-103 | a compaction into three or more files, one more event and a flush: the next compaction collides |
| DBNames.CollisionReachable | src/db/compaction.cpp:99-103 | for any table target, a run of appends that fill more than two output files, flush, compaction, append and flush reaches such a collision from a fresh database |
| DBNames.OverwrittenAreLost | src/db/compaction.cpp:99-103 | in an append-only run the events of an overwritten table are in no other source and not among the new tables |
| DBCompact.SharedName | src/db/compaction.cpp:99-103 | after a colliding compaction the old and the new listing share one name, and its file is the new table's |
| DBCompact.OverwrittenScans | src/db/db.cpp:291-306 | whoever opens the shared name, through either listing, scans the new table's events and none of the old one's |
| DBNames.SmallNeverCollide | src/db/db.cpp:461-464 | without reopening, while no compaction has written more than two files, no output takes a listed name |
| Paths.OutputPathInjective | src/db/compaction.cpp:91-97 | different sequences give different output names |
| Paths.FlushPathInjective | src/db/db.cpp:410-412 | different sequences give different flush names |
| Formats.PathsLook | src/db/db.cpp:400-415 | sequences are written with at least six digits into the names |
| DBQueries.CollectSource | src/db/db.cpp:259-269 | scanning one more source appends its selected events to the rows, up to the limit |
| DBQueries.SkipSafe | src/db/db.cpp:291-306 | a file skipped by its key bounds holds nothing in range |
| DBCompact.CompactionOutcome | src/db/db.cpp:453-488 | with free output names, level 0 is empty, level 1 is the old tables and the outputs in sequence order, all names are distinct and every listed table is on disk as recorded |
| DBModel.SortBySeqSorts | src/db/db.cpp:47-50 | sorting a level rearranges it so that its sequences never descend |
| DBCompact.SortInfosSorts | src/db/db.cpp:484-487 | so does sorting the listings |
| DBDeletes.LevelsAscend | src/db/db.cpp:371-488 | in every run level 0 lists its tables oldest first and level 1 in the order of their sequences |
| DBs.DB.Query | src/db/db.cpp:235-328 | through memtables, tables and cache, the rows are the first events with the symbol, a time in the inclusive range and a type other than 0xFF, the one asked for if there is one, as they stand in the active memtable, the immutable ones, level 0 and level 1, up to the limit |
| DBs.DB.Append | src/db/db.cpp:130-194 | the record is the last of the open log segment at the offset returned, the next sequence is returned, and the state is the model's step |
| DBs.DB.Remove | src/db/db.cpp:196-233 | a tombstone under the exact key is logged at the offset returned and inserted: the state is the model's step |
| DBs.DB.FlushNow | src/db/db.cpp:371-425 | every memtable becomes a level-0 table under its own sequence, oldest first: the state is the model's step |
| DBs.DB.DoFlush | src/db/db.cpp:404-425 | a non-empty memtable becomes one more level-0 table holding its events; an empty one changes nothing |
| DBs.DB.CompactNow | src/db/db.cpp:453-488 | unless an output name collides, the state is the model's step; level 1 is then in the order of its sequences; every listing whose sequence an output takes over stays listed, and its file now holds the new table |
| DBs.DB.Perform | src/db/db.cpp:130-488 | a whole run on a fresh object without an output name collision leaves exactly the state of the model's run |
| Arenas.Arena.Allocate | include/kronosdb/storage/arena.hpp:19-27 | the region has the requested size, lies inside a block and is disjoint from every earlier one; memory used grows by exactly the new block, if any |
| Arenas.Arena.SlowAlloc | include/kronosdb/storage/arena.hpp:47-55 | a new block of the larger of request and 4096 bytes, the region at its start |
| Arenas.Arena.AllocateAligned | include/kronosdb/storage/arena.hpp:29-33 | keeps every offset pointer-aligned; the region is inside a block, disjoint from earlier ones, and large enough if and only if the rounding did not wrap |
| Arenas.RoundUpEnough | include/kronosdb/storage/arena.hpp:29-33 | rounding up gives enough bytes if and only if the 64-bit addition does not wrap |
| Arenas.TotalAdds | include/kronosdb/storage/arena.hpp:35-53 | the memory in use counts every block with its size |
| SymbolTables.CutLoadsWhole | src/util/symbol_table.cpp:75-99 | a file of entries cut at any byte loads exactly its complete entries |
| Formats.SymbolLayout | src/util/symbol_table.cpp:56-73 | id, length of the name and the name stand at their places in an entry |
| SymbolTables.BuildFaithful | src/util/symbol_table.cpp:79-98 | the rebuilt maps are mutually inverse, hold exactly the entries, and the next id lies above all of them |
| SymbolTables.AnyOrderRebuilds | src/util/symbol_table.cpp:101-118 | a file rewritten in any order of the map rebuilds the same table |
| SymbolTables.EveryAppendLoadsIff | src/util/symbol_table.cpp:58-99 | a file is whole entries and nothing else if and only if every name appended to it is loaded again |
| SymbolTables.AppendLoadsIff | src/util/symbol_table.cpp:58-99 | for any one entry: behind a clean file, and only there, it is loaded again and leaves the file clean |
| SymbolTables.CutCleanIff | src/util/symbol_table.cpp:58-99 | a cut leaves the file clean exactly when it falls between two entries |
| SymbolTables.IdsAreStable | src/util/symbol_table.cpp:11-118 | through any run of interning, rewriting and reopening, the file loads to the table, names and ids stay one to one, and a name keeps its id for good |
| SymbolTables.FlushRepairs | src/util/symbol_table.cpp:101-118 | after a crash that tore the file at any byte, interning and then rewriting puts table and file in step again, and every surviving name keeps its id |
| SymbolTables.RestartKeepsIds | src/util/symbol_table.cpp:75-99 | the table loaded after a cut at any byte gives every name in it the id it had before |
| SymbolTables.TornTailSwallows | src/util/symbol_table.cpp:58-73 | an instance of appending to a file that is not clean: the appended name is not loaded, and a name nobody interned is |
| SymbolTables.SymbolTable.Intern | src/util/symbol_table.cpp:19-29 | a known name keeps its id and changes nothing; a new one gets the next id, which wraps at 32 bits, and is appended to the file |
| SymbolTables.SymbolTable.Load | src/util/symbol_table.cpp:75-99 | the loop computes the table of the file's complete entries |
| SymbolTables.SymbolTable.Flush | src/util/symbol_table.cpp:101-118 | rewrites the file from the maps, in whatever order they are walked |
| SymbolTables.RewriteSyncs | src/util/symbol_table.cpp:101-118 | a rewritten file loads to the table it was written from, whatever it held before |
| Histograms.ReachesKth | src/util/metrics.cpp:32-45 | the bucket the walk stops in is the bucket of the k-th smallest sample |
| Histograms.PercentileNearKth | src/util/metrics.cpp:24-47 | with k the whole part of p*n but at least 1, the percentile for p in (0, 1] is 1.5 times the power of two at or below the k-th smallest sample, hence more than 3/4 and at most 3/2 of it; 0.5 for the zero sample, and one fixed value for samples from 2^63 on |
| Histograms.PercentileOutside | src/util/metrics.cpp:24-31 | p above 1 asks for everything; p not above 0, or no samples, gives 0 |
| Histograms.KthExists | src/util/metrics.cpp:32-34 | for every rank up to the number of samples there is a k-th smallest sample, and it is one of the samples |
| Histograms.PercentileMonotone | src/util/metrics.cpp:24-47 | percentiles grow with p |
| Histograms.LatencyHistogram.Record | src/util/metrics.cpp:18-22 | one more sample: every bucket counts its samples and the total is their number |
| Histograms.LatencyHistogram.GetPercentile | src/util/metrics.cpp:24-47 | the walk over the buckets computes the percentile of the recorded samples |

## Left out

- The HTTP server, command line, generator, benchmarks, clocks, throughput tracker, metrics counters and latency fields: plumbing.
- File-system failures: files are byte sequences, `pread` returns what the file holds, a crash cuts the last log segment. A `write` that fails partway without a crash leaves a log tail that `append` does not repair (src/storage/wal.cpp:124-126).
- Weak memory: the skip-list machine is sequentially consistent. The writer's search for predecessors is one step, since it only reads what it alone writes.
- The raw pointer that the block cache returns is an immediate copy; hit and miss counters are left out.
- Random heights, the moment a memtable is full, and the order in which a hash map is walked are parameters.
- Bloom sizing by logarithms: the filter's k and m are given (src/table/bloom_filter.cpp:25-36).
- Concurrent flush, compaction and query: their steps are atomic here. In the code a memtable is invisible between leaving the list and joining level 0, and files are deleted before the level list changes (src/db/db.cpp:435-443, 468-483).
- The database object holds each memtable as the sorted run that its skip list holds (`MemTables.MemTable` connects the two) and always keeps a log.
- DBs.DB.Open: is given the symbols that the symbol file holds (`SymbolTables` says what a crash leaves of that file) and table directories without a name collision, where every file opens; for a file that does not open `DBOpens.OpenFile` has the code's tolerance.
- DBReopens.Reopen: as `DBs.DB.Open`, for the state of the object that crashed.
- Errors of files that are corrupt or deleted under a running query are not part of the database object: its files are the ones it wrote. The reader and the compaction do model them.
- DBs.DB.FlushNow: requires 64-bit table sequences not to wrap, a table counter above the names of all listed level-0 tables (which fails only after reopening with tables in level 0; `DBReopens.OverwritesIff` says when a flush then overwrites one), and fewer than 2^32 events in a memtable, the widths of the fields that record them.
- DBs.DB.constructor: takes block targets below 2^32 bytes and table targets under which a table holds fewer than 2^32 events.
- DBs.DB.Query: query statistics are not modelled, and neither is passing over a file that a concurrent compaction deleted.
- DBs.DB.CompactNow: requires 64-bit table sequences not to wrap; after a collision only the files and listings are promised, because cached blocks of the overwritten file may be served for the new one.
- DBs.DB.Perform: runs without an output name collision, because after one the listed key bounds no longer describe the file behind them.
- DBs.DB.PerformAndQuery: as `DBs.DB.Perform`.
- DBRuns.AppendedExactlyOnce: fewer than 2^64 appended events and fewer than 2^32 symbols, after which ids repeat; file names play no part in the model's runs, so the statement about files is `DBs.DB.PerformAndQuery`.
- DBReopens.CrashReturns: runs without an output name collision, and ids as for `DBRuns.AppendedExactlyOnce`.
- DBReopens.ReopenAndQuery: as `DBReopens.CrashReturns`.
- DBReopens.ReopenReturnsTwice: as `DBReopens.CrashReturns`.
- DBDeletes.ShownIff: table sequences do not wrap at 2^64, and tables are told apart by position as in all runs of the model.
- DBDeletes.DeletedIsGone: as `DBDeletes.ShownIff`, which covers the runs with tables in level 1.
- DBNames.CollisionReachable: fewer than 2^32 appends, so that no count in a table is truncated.
- TableFormat.WrittenOpens: blocks below 2^32 bytes, fewer than 2^32 blocks, files below 2^64 bytes; beyond that the recorded sizes are truncated. `FitsWhenSmall` gives the practical condition.
- CompactionRuns.RotatesAtPerFile: the size estimate is not wrapped at 2^64, which takes more than 10^15 records in one file.
- TableIO.SSTableWriter.constructor: takes filter sizes up to 2^32-8 bits only; beyond, the code would write out of bounds.
- Bloom.BloomFilter.Add: takes filters of up to 2^32-8 bits, which `Bloom.PositionsHaveBytes` shows to be exactly those whose bit accesses are in bounds; beyond, the code's behaviour is undefined.
- Bloom.Test: as `Bloom.BloomFilter.Add`.
- TableIO.SSTableReader.Get: as `Bloom.BloomFilter.Add`, for the filter decoded from the file.
- SymbolTables.IdsAreStable: names of fewer than 65536 bytes and ids below 2^32-1; longer names are recorded with a wrapped length.
- Histograms.LatencyHistogram.GetPercentile: computed over reals, with counters that do not wrap.
- `std::sort` of level 1 is a stable sort here; the two agree when sequences are distinct, which is the case without name collisions.
- Compaction scores, event-type names and level statistics are out of scope: they compute a figure or a name from one argument and feed nothing that is modelled.
