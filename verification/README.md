# Models of a userspace storage stack

This project models the parts of the repository where several redundant
structures must agree, and proves what each part promises over every input or
every run. There are five of them:

1. **The ext4 writer.** `Ext4Writer.Ext4` is a mounted filesystem that changes
   its medium one device write at a time and keeps the list of those writes.
   The medium holds bitmaps, group descriptors, superblock counters, inode
   records and block contents. A crash is a prefix of the list. The class
   invariant says that the medium is safe after *every* prefix, that what
   unfinished operations hold is marked in use and named by nobody, and that
   each group counter, in memory and on the medium, is exactly as far from its
   bitmap as it was at mount. Allocation, creation, streaming, linking,
   renaming, recursive deletion and every rollback keep it, so `Ext4Run.Run` has
   it for any interleaving of operations, together with when each one is refused
   and exactly what it did; a file once made is there at the end, with its bytes,
   unless an operation reached it. `DirBlock`, `Ext4Bits` and `ExtentTree` carry
   the same structures down to bytes, in place. `Durability` and `Unflushed` add
   a cache that may keep any subset of the writes since the last flush, and say
   what each operation can leave then.
2. **The read-modify-write stack.** `Luks.LuksVolume` over
   `Scsi.ScsiDevice` over an unreliable bus: two alignment layers, chunking, a
   tweak per sector, one scratch buffer. A volume is one flat plaintext array,
   over runs in which requests are refused and writes fail (`LuksRun`).
3. **The btrfs read engine.** A mutable path cursor over a B-tree refines the
   flat sorted list of its items. File reads go through it, through address
   translation and through checksum verification, and are proved against
   per-byte and per-sector definitions (`BtrfsWalk`, `BtrfsCsum`, `BtrfsChunk`,
   `BtrfsData`, `BtrfsExtent`).
4. **The USB transport.** URB slots with generations against a kernel that
   reorders, repeats and invents completions; draining; shrinking retries.
5. **The write fence.** Interleaved steps of any number of threads over two
   locks, a latch, an opaque batch and a writer claim per device.

Files are modules, named after what they model. `Arith` and `Bytes` are shared.
The layers meet as follows: `Ext4Disk` (the medium and what must hold of it),
`Ext4Steps` (one lemma per kind of device write), `Ext4Bitmap` and `Ext4Inodes`
(plans and counters), `Ext4Data` and `Ext4Read` (file contents), `Ext4Books`
(what unfinished operations hold), `Ext4Writer`, `Ext4Names`, `Ext4Delete`,
`Ext4Stream`, `Ext4Transfer`, `Ext4Run`, `Durability`, `Unflushed`.

Where code and comments disagree the code is followed: the allocator's module
comment says uninitialised groups are skipped (core/src/fs/ext4/alloc.rs:12) and
the code materialises them; the transport's Dead state is checked before the
first attempt of a transfer and not before a retry (usbfs/src/lib.rs:752).

Properties that turned out not to hold in full, with the exact condition:

- a file creation refused when its name is to be linked has a written record,
  and its rollback issues no barrier between erasing the record and freeing the
  blocks; with a cache, record and bitmap can disagree
  (`Durability.RefusedOutcome`), and they never do exactly if the file was given
  no data (`Durability.RefusedSafeIff`);
- a streamed file's name and record share one flush interval: cut after the
  barrier, the medium is safe unless all writes were issued and the cache kept
  the name and lost the record, and then the entry names an unused inode
  (`Durability.FinishDangles`);
- a rename takes the old name out and puts the new one in within one flush
  interval: the medium is safe unless the cache kept only the new name, in
  another block than the old one's, of an inode with one link, which then has
  both (`Unflushed.RenameSurvives`);
- a deletion issues one barrier, at its end for a file and also before the inode
  goes for a directory: the medium is safe exactly if the inode did not go before
  the name and no block before the inode (`Unflushed.DeleteSurvives`,
  `Unflushed.DeleteDirRest`);
- `create_directory` writes its record in the flush interval that marks its block
  (core/src/fs/ext4/file.rs:964-974): just before the barrier there is always an
  outcome with a record in use that names an unmarked block
  (`Unflushed.DirectoryTorn`), and from the barrier on the medium is safe
  (`Unflushed.DirectorySurvives`);
- superblock counters saturate at zero on the way down and not on the way up, so
  a refusal restores one exactly if it was at least what was claimed
  (`Ext4Books.Recount` in the contracts of `Reserve`, `CreateFile`,
  `CreateDirectory`, `BeginFile`, `SendFile`, and of `AbandonFile` and
  `FinishFile` for a stream that ran alone); a counter of 0 becomes 1 after a
  one-block file is refused its name (`Ext4Run.RefusedCreate`). Group counters
  and bitmaps are restored exactly;
- `alloc_inode` charges counters in memory for a cell beyond the superblock's
  inode count before it refuses it, exactly when that is the cell the search
  offers (`Ext4Inodes.Overrun`, shown of one safe medium by `ShortTable`, ruled
  out for whole tables by `WholeNeverOverruns`); the distance then moves by
  exactly that cell, and the medium agrees with memory again once the group is
  written;
- a failed LUKS write may change bytes outside the segment, because the drive
  writes whole blocks; it cannot exactly if the blocks around its sectors lie in
  the segment (`Luks.SegmentKeptIff`), which holds for every write if the segment
  begins and ends on blocks of the drive (`Luks.LuksVolume.WriteAt`);
- an extent tree refuses blocks that an index node on their path starts after
  (`ExtentTree.MapRunRefuses`); it refuses none exactly if every index node
  starts where its part of the file does (`ExtentTree.MapRunTotal`);
- the command descriptor block of an empty range starting exactly at block 2^32
  does not decode to it (`BulkOnly.CdbDecodes`);
- `verify_data` and btrfs `read_inode_data` find nothing when no key at or below
  the first sector or byte exists; the contracts say what is answered then. A
  read in which a sector fails its checksum is refused exactly if the checksum
  tree has such a key (`BtrfsData.ReadVouches`), and a tree without one, where
  the rotten sector comes back, is `BtrfsData.RotComesBack`.

## Model

| member | source | states |
|---|---|---|
| Extents.Coalesce | core/src/fs/ext4/file.rs:101-113 | merging neighbours yields the coalesced list and the same blocks in the same order |
| Extents.RunsFrom | core/src/fs/ext4/file.rs:134-159 | the layout lists the same blocks end to end from logical 0; refused exactly when it needs more runs than a leaf holds |
| Extents.LayoutStable | core/src/fs/ext4/file.rs:134-159 | growing the extents never remaps a block already placed |
| Extents.RunIndexTiled | core/src/fs/ext4/file.rs:390-408 | a logical block is found exactly if the layout covers it, and the rest of its run is contiguous with it |
| DirChain.InsertCorrect | core/src/fs/ext4/dirent.rs:311-369 | insertion succeeds exactly when some record has the slack, keeps the tiling and adds exactly the one entry |
| DirChain.RemoveCorrect | core/src/fs/ext4/dirent.rs:371-407 | removal succeeds exactly when the name is live, keeps the tiling and deletes exactly that entry |
| DirChain.InsertThenRemove | core/src/fs/ext4/dirent.rs:311-407 | linking and unlinking a fresh name restores the live list |
| DirChain.LookupIsLive | core/src/fs/ext4/dirent.rs:246-282 | a name is found exactly if some live record has it |
| DirChain.RemoveLeavesRoom | core/src/fs/ext4/dirent.rs:371-407 | a removed name can always be put back |
| DirChain.RemoveKeepsRoom | core/src/fs/ext4/dirent.rs:371-407 | removing a name costs no other name its room |
| DirBlock.ParseTiles | core/src/fs/ext4/dirent.rs:311-369 | records that parse are well formed and tile the usable region exactly |
| DirBlock.InsertInto | core/src/fs/ext4/dirent.rs:311-369 | on bytes, in place: the block becomes the chain with the entry inserted, or is unchanged; the checksum tail is never touched |
| DirBlock.RemoveFrom | core/src/fs/ext4/dirent.rs:371-407 | on bytes, in place: the block becomes the chain without the name and the inode it named is returned, or is unchanged |
| DirBlock.FindIn | core/src/fs/ext4/dirent.rs:246-282 | the byte walk answers what lookup in the chain answers |
| DirBlock.ListBlock | core/src/fs/ext4/mod.rs:933-1006 | the byte walk lists exactly the live records other than `.` and `..` |
| DirBlock.RunEdits | core/src/fs/ext4/dirent.rs:311-407 | over every sequence of inserts and removals the records tile the usable region and the tail stays as it was |
| Ext4Bits.SetBit | core/src/fs/ext4/alloc.rs:677-679 | exactly one bit of the bitmap becomes set |
| Ext4Bits.ClearBit | core/src/fs/ext4/alloc.rs:681-683 | exactly one bit of the bitmap becomes clear |
| Ext4Bits.FindFreeBitFrom | core/src/fs/ext4/alloc.rs:697-711 | the byte-skipping search returns the first zero bit of the range, as far as the bitmap goes, or none when there is none |
| Ext4Bitmap.PlanBlocks | core/src/fs/ext4/alloc.rs:331-419 | a plan of maximal disjoint runs of free blocks totalling the request, namely the lowest free blocks of the groups in order from the goal; refused exactly when the groups cannot supply it |
| Ext4Bitmap.SupplyTaken | core/src/fs/ext4/alloc.rs:331-419 | carrying out a plan lowers what the groups can still supply by exactly the request |
| Ext4Bitmap.PlanFree | core/src/fs/ext4/alloc.rs:439-483 | accepted exactly if every block is valid, in use and listed once; the plan clears exactly those and touches only groups that have one |
| Ext4Bitmap.MarkThenClear | core/src/fs/ext4/alloc.rs:331-483 | freeing what an allocation took restores the bitmaps bit for bit |
| Ext4Bitmap.CommitPrefix | core/src/fs/ext4/alloc.rs:295-303 | in every prefix of a commit a descriptor is new only if its bitmap is, and the superblock is the last write |
| Ext4Steps.StepPublish | core/src/fs/ext4/file.rs:648-702 | writing a record whose blocks are marked and named by nobody keeps the medium safe |
| Ext4Steps.StepInodeBitmap | core/src/fs/ext4/alloc.rs:510-652 | flipping the bit of an inode whose record is blank keeps the medium safe |
| Ext4Steps.StepBlockBitmap | core/src/fs/ext4/alloc.rs:295-303 | a block bitmap that still covers every named block keeps the medium safe |
| Ext4Steps.StepLink | core/src/fs/ext4/dirent.rs:112-189 | adding an entry for a written, unnamed inode keeps the medium safe |
| Ext4Steps.StepUnlink | core/src/fs/ext4/dirent.rs:193-241 | removing an entry keeps the medium safe and leaves a singly linked inode unnamed |
| Ext4Inodes.FindInode | core/src/fs/ext4/alloc.rs:510-576 | the first group with a free, admissible inode and its lowest free cell; none exactly when no group qualifies |
| Ext4Inodes.WholeNeverOverruns | core/src/fs/ext4/alloc.rs:510-576 | a bitmap whose cells all have a record never offers a number beyond the inode count |
| Ext4Inodes.ShortTable | core/src/fs/ext4/alloc.rs:510-576 | a safe medium in which the cell on offer is beyond the inode count |
| Ext4Inodes.SideClaim | core/src/fs/ext4/alloc.rs:510-576 | claiming an inode keeps the counters' distance, the unused tail free of inodes and the directory counts, for every geometry |
| Ext4Inodes.SideRelease | core/src/fs/ext4/alloc.rs:585-652 | so does releasing one |
| Ext4Data.StoredReads | core/src/fs/ext4/file.rs:589-613 | data stored block by block with a zero-padded end reads back exactly |
| Ext4Books.UndoRestores | core/src/fs/ext4/file.rs:503-507 | undoing a reservation restores both bitmaps, every group counter in memory and on the medium, and every file and directory |
| Ext4Books.SavedCommit | core/src/fs/ext4/alloc.rs:295-303 | writing back the descriptors of some groups keeps the counters on the medium at their distance and settles what was owed to those groups |
| Ext4Books.SettledMedium | core/src/fs/ext4/alloc.rs:295-303 | with nothing owed, the descriptors the next mount reads are those in memory |
| Ext4Books.OwedShows | core/src/fs/ext4/alloc.rs:510-576 | and while something is owed they are not |
| Ext4Books.FormattedSafe | core/src/fs/ext4/mod.rs:476-506 | a freshly formatted medium with an empty root directory is safe to mount |
| Ext4Books.RoomAfter | core/src/fs/ext4/dirent.rs:371-407 | after a name is removed, another finds no room exactly if no record of any block has the slack once the removed one is merged |
| Ext4Writer.Ext4.Mount | core/src/fs/ext4/mod.rs:476-506 | mounting a safe medium establishes the invariant with the counters the medium has, whatever they say |
| Ext4Writer.Ext4.Commit | core/src/fs/ext4/alloc.rs:295-303 | installs the planned bitmaps and counters, every intermediate medium safe, bitmap before descriptor before superblock |
| Ext4Writer.Ext4.AllocBlocks | core/src/fs/ext4/alloc.rs:331-419 | disjoint maximal runs of previously free blocks totalling the count, those the plan chooses; refused exactly when short, changing nothing |
| Ext4Writer.Ext4.FreeBlocks | core/src/fs/ext4/alloc.rs:439-483 | clears exactly the listed blocks; an invalid or repeated block refuses the batch and changes nothing |
| Ext4Writer.Ext4.AllocInode | core/src/fs/ext4/alloc.rs:510-576 | grants exactly the number on offer, erasing the slot before the bitmap claims it; no free inode exactly when none is on offer, refused exactly when it is beyond the inode count, and then exactly that cell was charged |
| Ext4Writer.Ext4.FreeInode | core/src/fs/ext4/alloc.rs:585-652 | erases the record before the bit is cleared; a refusal changes nothing |
| Ext4Writer.Ext4.FindEntry | core/src/fs/ext4/dirent.rs:246-282 | finds an entry exactly if the directory has the name |
| Ext4Writer.Ext4.LinkFile | core/src/fs/ext4/dirent.rs:112-189 | one block write adds exactly the entry to one block of the directory; refused exactly for the listed reasons, changing nothing |
| Ext4Writer.Ext4.UnlinkFile | core/src/fs/ext4/dirent.rs:193-241 | one block write removes exactly the name, and no name loses room |
| Ext4Writer.Ext4.WriteFullBlocks | core/src/fs/ext4/file.rs:390-408 | whole blocks land on the blocks the layout gives them and nowhere else |
| Ext4Writer.Ext4.WriteFileData | core/src/fs/ext4/file.rs:589-613 | the whole file is stored through its runs, touching no other block |
| Ext4Writer.Ext4.UndoNew | core/src/fs/ext4/file.rs:503-507 | returns the inode first, then exactly its blocks |
| Ext4Writer.Ext4.GiveBack | core/src/fs/ext4/file.rs:503-507 | rolling back restores bitmaps, group counters in memory and on the medium, and every other file, with the order of its writes; a superblock counter is restored exactly if it was at least what was claimed |
| Ext4Writer.Ext4.Reserve | core/src/fs/ext4/file.rs:512-587 | an inode, the blocks and a leaf when needed; refused exactly when no inode or too few blocks are free, or the blocks the allocator would choose need more runs than a leaf, or no leaf is left; then everything is restored, the superblock counters exactly if they were at least the claims, which are stated exactly |
| Ext4Writer.Ext4.WriteNewFile | core/src/fs/ext4/file.rs:512-587 | a complete unnamed file whose data and bookkeeping precede a barrier and its record; refused exactly when it cannot be placed, with what was claimed |
| Ext4Writer.Ext4.CreateFile | core/src/fs/ext4/file.rs:458-481 | the file holds the data under the name after the ordered writes, exactly one entry is new and nothing else changed; refused exactly when it cannot be placed or linked, and then everything is as before, the superblock counters exactly if they were at least what was claimed |
| Ext4Writer.Ext4.PatchLinks | core/src/fs/ext4/file.rs:807-830 | changes one link count, refused exactly on overflow or underflow |
| Ext4Writer.Ext4.WriteNewDir | core/src/fs/ext4/file.rs:897-991 | an unnamed directory holding only `.` and `..`, with the order of its writes; refused exactly when no inode or block is on offer or the block is the first, and then everything is as before, with what was claimed |
| Ext4Writer.Ext4.NameNewDir | core/src/fs/ext4/file.rs:974-991 | behind a barrier, the entry and then the parent's link; refused exactly when the entry is or the count overflows, and then the directory is withdrawn |
| Ext4Writer.Ext4.CreateDirectory | core/src/fs/ext4/file.rs:897-991 | the named directory, the parent's extra link and one new entry, with the order of the writes; refused exactly when it cannot be placed, linked or counted, and then everything is as before, with what was claimed |
| Ext4Writer.Ext4.CollectExtents | core/src/fs/ext4/file.rs:709-800 | lists exactly the data and metadata blocks of a record |
| Ext4Writer.Ext4.DropInode | core/src/fs/ext4/mod.rs:1144-1237 | erases an unnamed inode, then frees exactly its blocks, every bitmap written clearing one of them |
| Ext4Names.ReplaceTarget | core/src/fs/ext4/file.rs:1000-1087 | a replaced target loses its name and its inode and nothing else changes |
| Ext4Names.MoveName | core/src/fs/ext4/file.rs:1071-1086 | two block writes and a barrier move the name; refused exactly for a bad name, a directory that cannot be changed, a name taken or no room once the old name is out, and then the old name stands if the pointers are good |
| Ext4Names.RenameFile | core/src/fs/ext4/file.rs:1000-1087 | the same inode under the new name, the old target gone, all else untouched; for different names refused exactly for the listed reasons, all visible beforehand, and then the old name still stands |
| Ext4Delete.Detach | core/src/fs/ext4/mod.rs:1144-1237 | takes one emptied target out of its directory, gives the parent its link back and drops the inode, with the order of the writes; when refused, why |
| Ext4Delete.DeleteAt | core/src/fs/ext4/mod.rs:1144-1237 | success removes exactly the subtree and its name; failure removes nothing outside it and means that some entry of the tree cannot be removed, for a reason visible beforehand; a missing name changes nothing |
| Ext4Read.ReadData | core/src/fs/ext4/mod.rs:844-907 | reading run by run equals reading block by block, zeros for holes, cut at the file size; refused only for a bad run at a position of the range read |
| Ext4Read.SplitRead | core/src/fs/ext4/mod.rs:844-907 | a range read in two parts gives the same bytes |
| ExtentTree.MapRunAgrees | core/src/fs/ext4/mod.rs:703-790 | in every well-formed tree a reported run of n means the next n blocks map consecutively, or are all holes |
| ExtentTree.TreeRunsAgree | core/src/fs/ext4/mod.rs:703-790 | so the reader may read any well-formed tree run by run |
| ExtentTree.MapRunRefuses | core/src/fs/ext4/mod.rs:715-790 | a lookup is refused exactly when some index node on the path to the block starts after it |
| ExtentTree.MapRunTotal | core/src/fs/ext4/mod.rs:715-790 | the trees that refuse no block of the file are exactly those whose index nodes each start where their part of the file does |
| ExtentTree.MapRunExtents | core/src/fs/ext4/mod.rs:715-790 | the byte-level descent answers what the tree it represents answers |
| ExtentTree.Collect | core/src/fs/ext4/file.rs:709-800 | returns exactly the data extents and index blocks; accepted exactly for a leaf or one level of leaves |
| ExtentTree.WriteRoot | core/src/fs/ext4/file.rs:1104-1142 | the 60-byte root parses back to the runs, or to one pointer to the leaf; refused exactly when neither fits |
| ExtentTree.WriteLeafBlock | core/src/fs/ext4/file.rs:614-646 | the leaf block parses back to the runs, its last four bytes left to the checksum |
| ExtentTree.RoundTrip | core/src/fs/ext4/file.rs:709-800 | writing then collecting returns the same runs and leaf, and mapping any block gives the block it was placed on |
| Ext4Stream.BeginFile | core/src/fs/ext4/file.rs:165-210 | reserves everything for the announced size; refused exactly when a file of that size cannot be placed, and then everything is restored, the superblock counters exactly if they were at least the claims |
| Ext4Stream.BeginStreaming | core/src/fs/ext4/file.rs:215-230 | claims an inode and nothing else |
| Ext4Stream.BooksGrow | core/src/fs/ext4/file.rs:234-323 | after growing, the extents list precisely the data blocks and the leaf, without repeats |
| Ext4Stream.GrowData | core/src/fs/ext4/file.rs:234-323 | appends the blocks the allocator chooses without remapping any; refused exactly when short or when the layout would need too many runs, and then what was claimed is returned, the counters as stated |
| Ext4Stream.GrowLeaf | core/src/fs/ext4/file.rs:234-323 | claims one block for the leaf, keeping the books exact; refused exactly when none is free, and then nothing changes |
| Ext4Stream.WriteChunk | core/src/fs/ext4/file.rs:234-323 | the stream's content grows by exactly the chunk or not at all, and not at all exactly when the chunk exceeds the announced size or the growth cannot be placed; the tail stays under one block; placed blocks stay; nothing else changes, and the counters by exactly what was claimed |
| Ext4Stream.FinishUnlinked | core/src/fs/ext4/file.rs:357-386 | the record published after a barrier describes exactly the content, counters and bitmaps as they were; refused exactly when incomplete or without its leaf |
| Ext4Stream.FinishFile | core/src/fs/ext4/file.rs:326-349 | a named file with exactly the content and one new entry, refused exactly when linking or finishing is, and then, for every stream, its inode and blocks are returned as by abandoning |
| Ext4Stream.AbandonFile | core/src/fs/ext4/file.rs:353-355 | for every stream: its inode bit, its blocks' bits and their counts are given back and nothing else changes; alone, the filesystem is as before, superblock counters exactly if they were at least the most ever claimed at once |
| Ext4Stream.ReturnedAfter | core/src/fs/ext4/file.rs:326-349 | a record written first does not change what giving a stream back comes to |
| Ext4Transfer.ReadFile | core/src/fs/ext4/mod.rs:844-907 | any range of a file laid out by runs is the slice of its bytes |
| Ext4Transfer.SendFile | core/src/fs/ext4/file.rs:165-408 | for every split into chunks the named file holds the concatenation, or everything is as before, the superblock counters exactly if they were at least the claims; with an announced size it is refused exactly when a file of that size cannot be placed, the chunks do not add up to it, or the name is refused |
| Ext4Transfer.SendAndRead | core/src/fs/ext4/file.rs:165-408 | what was sent in chunks is what any read returns |
| Ext4Run.Run | core/src/fs/ext4/mod.rs:1144-1237 | over every run of interleaved operations every prefix of the writes is a safe medium; each operation was skipped, refused or done exactly under its stated condition and had exactly its stated effect on the names, the other inodes and the counters; streams hold exactly the chunks they accepted; and every counter, in memory and on the medium, keeps its distance, moved only by charged cells beyond the inode count |
| Ext4Run.Survives | core/src/fs/ext4/mod.rs:1144-1237 | a file on the medium at some point of a run is there at its end, under its name and with its bytes, unless a later rename or deletion reached it or its directory |
| Ext4Run.MadeSurvives | core/src/fs/ext4/file.rs:326-507 | so is what a creation or a finished stream made |
| Ext4Run.StoryReceived | core/src/fs/ext4/file.rs:234-323 | the open streams hold exactly the chunks accepted since they were begun, in order |
| Ext4Run.StoryKeeps | core/src/fs/ext4/mod.rs:1144-1237 | a run in which no such cell was charged owes the medium nothing and leaves every distance as it was |
| Ext4Run.RefusedCreate | core/src/fs/ext4/file.rs:458-507 | a file that finds its place but not its name leaves each superblock counter as the larger of what it was and what the file claimed; 0 becomes 1 |
| Durability.CreateSurvives | core/src/fs/ext4/file.rs:458-587 | whatever the cache kept of a creation, a durable name implies the whole file and a durable record implies its data, leaf and bits |
| Durability.FinishSurvives | core/src/fs/ext4/file.rs:326-386 | for a streamed file a durable record implies its data, leaf and bits |
| Durability.FinishDangles | core/src/fs/ext4/file.rs:326-349 | cut from the barrier on, with any cache subset, the medium is safe exactly unless all writes were issued, the name was kept and the record lost; exactly then the entry names an unused inode |
| Durability.RefusedOutcome | core/src/fs/ext4/file.rs:458-507 | a concrete cache outcome of a refused creation in which a durable record names free blocks |
| Durability.RefusedSafeIff | core/src/fs/ext4/file.rs:458-507 | every cache outcome of a refused creation is whole exactly if it was given no data |
| Unflushed.RenameSurvives | core/src/fs/ext4/file.rs:1071-1086 | cut anywhere in a move, with any cache subset: which names the directory has, and that the medium is safe exactly unless only the new name was kept, in another block, of an inode with one link |
| Unflushed.DirectorySurvives | core/src/fs/ext4/file.rs:974-991 | from the barrier of `create_directory` on, with any cache subset, the medium is safe and the directory stands; it has its name and its parent the link exactly if that write was kept |
| Unflushed.DirectoryTorn | core/src/fs/ext4/file.rs:964-974 | for every directory created, an outcome before the barrier in which its record is in use and its block is not marked |
| Unflushed.DeleteSurvives | core/src/fs/ext4/mod.rs:1212-1236 | cut anywhere in the removal of a file, with any cache subset: its name and inode are there exactly unless their writes were kept, all else is, and the medium is safe exactly if the inode did not go before the name and no block before the inode |
| Unflushed.DeleteDirFirst | core/src/fs/ext4/mod.rs:1212-1225 | cut before the first barrier of the removal of a directory, with any cache subset, the medium is safe; name and link are gone exactly if that write was kept |
| Unflushed.DeleteDirRest | core/src/fs/ext4/mod.rs:1226-1236 | cut after it, the medium is safe exactly if no block went before the inode |
| BulkOnly.CdbDecodes | core/src/usb/scsi.rs:715-781 | the command block decodes to the intended address and count exactly unless the range is empty at block 2^32 |
| BulkOnly.CbwDecodes | core/src/usb/bot.rs:60-73 | the wrapper decodes to the command encoded |
| Scsi.ScsiDevice.WaitCsw | core/src/usb/scsi.rs:364-480 | a halt is cleared at most once per status wait |
| Scsi.ScsiDevice.CommandIn | core/src/usb/scsi.rs:485-644 | success returns what the drive vouched for under this command's tag; at most one REQUEST SENSE follows a failure |
| Scsi.ScsiDevice.CommandOut | core/src/usb/scsi.rs:364-480 | success means a passing status with the own tag and no residue; nothing outside the commanded blocks changes |
| Scsi.ScsiDevice.ReadBlocks | core/src/usb/scsi.rs:715-743 | the blocks asked for, every command aimed inside the capacity |
| Scsi.ScsiDevice.WriteBlocks | core/src/usb/scsi.rs:752-781 | acknowledged in full, exactly those blocks hold the data |
| Scsi.ScsiDevice.ReadAt | core/src/usb/scsi.rs:1001-1040 | any byte range, however it is cut into READs; out of bounds exactly when it leaves the medium, with no command issued |
| Scsi.ScsiDevice.WriteAt | core/src/usb/scsi.rs:1065-1111 | success means every block of the covering range was carried in full and acknowledged and exactly the range changed; in no case does a byte outside the covering blocks change |
| Luks.Xts | core/src/luks/keyslot.rs:105-213 | in place, sector k is transformed under first + k*step and nothing else changes; accepted exactly for whole sectors and a known key length |
| Luks.DecryptedPart | core/src/luks/keyslot.rs:105-153 | decrypting any run of sectors gives that part of the plaintext |
| Luks.EncryptedPart | core/src/luks/keyslot.rs:171-213 | storing encrypted sectors stores their plaintext and nothing else |
| Luks.LuksVolume.ReadAt | core/src/luks/volume.rs:153-194 | any byte range of the plaintext |
| Luks.LuksVolume.WriteChunk | core/src/luks/volume.rs:285-331 | read, patch and write back changes the plaintext exactly in the range |
| Luks.LuksVolume.WriteAt | core/src/luks/volume.rs:229-281 | any byte range, however chunked; no device byte outside the covering sectors or the segment changes on success, and none outside the segment on any outcome if it begins and ends on blocks of the drive; a range past the segment is refused and changes nothing |
| Luks.SegmentKeptIff | core/src/luks/volume.rs:229-281 | a failed write cannot change bytes outside the segment exactly if the blocks around its sectors lie in it |
| LuksRun.Serve | core/src/luks/volume.rs:153-331 | over every run of reads and writes, refused and failed ones included, the volume is one flat array of known bytes: reads return it, stored writes change exactly their range, a failed write makes at most the sectors around it unknown, and each known sector is stored encrypted under iv + k*step |
| LuksRun.AllKnown | core/src/luks/volume.rs:153-331 | while no write fails but for its range, the whole array is known and is the successful writes applied in order |
| LuksRun.KnownCiphertext | core/src/luks/keyslot.rs:171-213 | a sector whose bytes are known is the encryption of them under its own tweak |
| Luks.SectorCiphertext | core/src/luks/keyslot.rs:171-213 | ciphertext sector k is plaintext sector k encrypted under iv + k*step |
| BtrfsTree.LessIsRank | core/src/fs/btrfs/tree.rs:126-140 | the lexicographic key order is the order of one number |
| BtrfsTree.LowerBound | core/src/fs/btrfs/tree.rs:327-338 | the binary search finds the first key at or above the target |
| BtrfsTree.ChildFor | core/src/fs/btrfs/tree.rs:351-360 | the chosen subtree is where the target's place in the flattened tree lies |
| BtrfsCursor.Cursor.Advance | core/src/fs/btrfs/cursor.rs:183-195 | moves by exactly one item across leaf boundaries |
| BtrfsCursor.Cursor.AdvanceLeaf | core/src/fs/btrfs/cursor.rs:220-261 | moves to the first item of the next leaf, skipping none |
| BtrfsCursor.Cursor.Retreat | core/src/fs/btrfs/cursor.rs:101-109 | moves back by exactly one, invalid from the first item |
| BtrfsCursor.Cursor.RetreatLeaf | core/src/fs/btrfs/cursor.rs:112-159 | moves to the last item of the previous leaf |
| BtrfsCursor.Search | core/src/fs/btrfs/cursor.rs:40-71 | lands on the first flattened item at or above the key |
| BtrfsCursor.SearchLe | core/src/fs/btrfs/cursor.rs:83-92 | lands on the last item at or below the key; invalid exactly when there is none |
| BtrfsCursor.WalkTree | core/src/fs/btrfs/mod.rs:274-309 | visits the flattened tree |
| BtrfsCursor.Enumerate | core/src/fs/btrfs/cursor.rs:183-261 | stepping a cursor visits the same sequence |
| BtrfsCursor.ForEachItem | core/src/fs/btrfs/cursor.rs:292-311 | visits exactly the run of items of one object and type |
| BtrfsWalk.StartPassed | core/src/fs/btrfs/extent.rs:172-178 | where the search leaves a walk over items with disjoint ranges, everything before is over |
| BtrfsExtent.ReadInodeData | core/src/fs/btrfs/extent.rs:157-290 | equals the per-byte meaning of the sorted extents read through verified, translated device reads: data, inline data, zeros for holes, preallocation and missing items; where the checksum tree has a key at or below the sectors read, no byte comes from a sector that fails its checksum; sound items never fail |
| BtrfsExtent.FetchExtent | core/src/fs/btrfs/extent.rs:235-320 | part of an extent: zeros, a slice of the inline or expanded bytes, or verified device bytes, refused exactly when the range leaves them or cannot be read |
| BtrfsExtent.SplitRead | core/src/fs/btrfs/extent.rs:157-290 | however a range is split the parts make up the whole |
| BtrfsCsum.Find | core/src/fs/btrfs/csum.rs:171-195 | the forward-only cursor answers what an independent lookup answers |
| BtrfsCsum.VerifyData | core/src/fs/btrfs/csum.rs:95-167 | mismatch exactly when a covered sector is bad, otherwise the exact uncovered count, all exactly when it is zero |
| BtrfsData.ReadData | core/src/fs/btrfs/csum.rs:72-94 | any byte range, widened to whole sectors: the translated device bytes and the exact coverage; unmapped exactly when an address of those sectors cannot be reached, mismatched exactly when the checksum tree has a key at or below the first of them and one of them fails its checksum |
| BtrfsData.ReadVouches | core/src/fs/btrfs/csum.rs:72-94 | a read of reachable addresses is mismatched exactly when a sector of it fails its checksum and the checksum tree has a key at or below the first sector |
| BtrfsData.BytesVouched | core/src/fs/btrfs/csum.rs:72-94 | with such a key, every byte read lies in a sector that has no checksum or matches it |
| BtrfsData.RotComesBack | core/src/fs/btrfs/csum.rs:95-167 | without one, a sector that fails its checksum can come back |
| BtrfsChunk.ParseEmit | core/src/fs/btrfs/chunk.rs:101-218 | an emitted chunk parses back, whatever follows it |
| BtrfsChunk.EmitParse | core/src/fs/btrfs/chunk.rs:101-218 | whatever parses is byte for byte the item that chunk would be emitted as |
| BtrfsChunk.InsertedOrdered | core/src/fs/btrfs/chunk.rs:382-390 | inserting keeps the map sorted, adds the chunk and drops only one with its address |
| BtrfsChunk.InsertAllOrdered | core/src/fs/btrfs/chunk.rs:344-390 | adding chunks one after another keeps the map sorted and keeps exactly the last chunk of each address |
| BtrfsChunk.InsertAllSorted | core/src/fs/btrfs/chunk.rs:344-375 | inserting a sorted list one by one gives that list |
| BtrfsChunk.ChunkMap.Insert | core/src/fs/btrfs/chunk.rs:382-390 | the in-place update is that insertion |
| BtrfsChunk.ChunkMap.Bootstrap | core/src/fs/btrfs/chunk.rs:344-375 | accepts exactly the arrays that some non-empty list of valid chunks serialises to, and builds exactly their map |
| BtrfsChunk.ChunkMap.Map | core/src/fs/btrfs/chunk.rs:412-445 | the containing chunk's first copy and the run to its end; none exactly when no chunk gives one |
| BtrfsChunk.ChunkMap.MapAllStripes | core/src/fs/btrfs/chunk.rs:452-478 | every copy of the containing chunk; none exactly when no chunk reaches the address |
| BtrfsChunk.MapsAgree | core/src/fs/btrfs/chunk.rs:412-478 | both translations agree on the first copy |
| BtrfsChunk.ReadLogical | core/src/fs/btrfs/mod.rs:210-220 | reading across chunks is byte-by-byte translation; refused exactly when the range holds an address that no chunk contains or whose chunk cannot be entered |
| Urb.UrbArena.Allocate | usbfs/src/lib.rs:270-296 | granted exactly when enough slots are free, all under one new generation |
| Urb.ReapKeeps | usbfs/src/lib.rs:640-700 | any reaped slot, stale, repeated or unknown, counts a URB at most once |
| Urb.UsbTransport.Submit | usbfs/src/lib.rs:574-640 | exactly the URBs before the kernel's first refusal are in flight, and the refused ones' slots free |
| Urb.UsbTransport.Reap | usbfs/src/lib.rs:640-735 | the outcome of each URB is that of its first completion among the answers taken; answers are taken until all URBs are back, one of them stops the wait or there are no more; no error exactly when all came back unharmed, otherwise the error of a harmed URB or of the wait |
| Urb.UsbTransport.Drain | usbfs/src/lib.rs:992-1103 | everything is taken back according to the answers, or the transport is dead |
| Urb.UsbTransport.Attempt | usbfs/src/lib.rs:574-772 | the whole effect: which slots were taken, what the kernel accepted and answered and that the wait did not end early, success exactly when all came back unharmed, the contiguous prefix of those outcomes, and every slot released or the transport dead |
| Urb.EnoughSlots | usbfs/src/lib.rs:238-296 | an attempt that starts with every slot free gets its slots |
| Urb.FewHalvings | usbfs/src/lib.rs:740-756 | the limit can be halved at most ten times |
| Urb.LimitsFall | usbfs/src/lib.rs:740-756 | the limit strictly falls from attempt to attempt |
| Urb.BulkTransfer | usbfs/src/lib.rs:574-988 | a chain of at most eleven attempts from the transport as it was to the transport as it is, each a full attempt at the limit the one before left, no attempt exactly when empty or dead, and the last one's contiguous prefix as the result |
| Fence.Kept | jni/src/bridge.rs:488-613 | every step of every thread keeps locks, fence, batch and claims consistent |
| Fence.RunSafe | jni/src/bridge.rs:488-613 | so does every run |
| Fence.BodyAllowed | jni/src/bridge.rs:488-557 | a write body runs only while the fence is unset, alone on its volume and under the writer claim |
| Fence.FirstReasonWins | jni/src/bridge.rs:558-591 | once latched the first reason never changes and a discarded batch stays gone |
| Fence.FencedMeansDiscarded | jni/src/bridge.rs:558-591 | a latched fence means no batch, except while the latching thread still holds the lock to discard it |
| Fence.OneWriter | jni/src/bridge/writer.rs:230-238 | at most one live volume per device holds the claim, across claims and drops |

## Left out

- The btrfs write engine: the fence model treats an active batch as an opaque optional value.
- AES, key derivation, digests, CRC, the decompressors: the sector cipher is any pair of inverse functions per tweak, decompression and checksums are arbitrary functions.
- ext4 checksums: only the fact that the tail bytes are reserved.
- `materialize_bitmap` and group-descriptor pointers: a group's effective bitmap is taken as given.
- Partition tables, the LUKS header, superblock parsing, statfs, the node cache, subvolume naming, JNI marshalling, registries: field reads and bookkeeping next to the modelled cores.
- Path resolution: operations take a directory inode and a name.
- The `.` and `..` entries count as records and names but not as references: name safety and subtrees are about the others.
- Failing device writes with a run that goes on: a device error stops the run, so the errors `undo_new_file` ignores are not modelled.
- Torn writes: one device write reaches the medium whole or not at all, also when it covers several blocks.
- Directory sizes: a directory's size covers its mapped blocks.
- Ext4Writer.Ext4.AllocBlocks: superblock counters saturate, so their distance from the bitmaps is stated only for the groups.
- Ext4Writer.Ext4.FreeBlocks: only for blocks that no in-use record names, which is when the source calls it; freeing others would lose files.
- Ext4Writer.Ext4.FreeInode: only for an inode that no entry names.
- Ext4Writer.Ext4.LinkFile: an inode with one link is unnamed beforehand, as a new one is.
- Ext4Writer.Ext4.PatchLinks: directories only, the one kind whose count the modelled operations patch.
- Ext4Inodes.SideClaim: descriptor fields are unbounded numbers; a directory count below what it counts at mount is outside the modelled distances.
- Ext4Transfer.ReadFile: files laid out by gapless runs, as the writer lays them out; other trees are read by `ExtentTree` and `Ext4Read`.
- Ext4Names.RenameFile: between taking the old name out and putting the new one in, the file has no name; a crash there leaves a written, unnamed inode, which is safe and leaked.
- Ext4Names.RenameFile: a refused rename keeps the old name only if no block pointer of the directory is below the first data block, since the entry code refuses to relink there.
- Ext4Names.RenameFile: with equal names and a parent that is not a directory the answer depends on the bytes of a file and is left open.
- Ext4Names.RenameFile: for equal names the reasons for a refusal are necessary, not sufficient.
- Ext4Delete.DeleteAt: the obstacles that a failure implies are necessary, not sufficient: a bad block pointer behind the block that holds the name does not stop a deletion.
- Ext4Transfer.SendFile: without an announced size the refusal is stated per chunk, by `Ext4Stream.WriteChunk`, and not for the whole transfer.
- Ext4Read.ReadData: a bad run at a position inside an earlier run is not looked at, so the refusal is stated in one direction.
- Unflushed.DirectoryTorn: an outcome before the barrier, not all of them; a slot's earlier record may come back there too.
- Unflushed.DeleteSurvives: power is lost with everything before the operation on the medium; losses that span two operations are covered only as prefixes.
- Ext4Stream.GrowLeaf: a refused leaf leaves the data blocks just claimed with the stream, which still owns them.
- ExtentTree.MapRunExtents: trees are well formed; descent of arbitrary bytes need not end.
- ExtentTree.RoundTrip: logical and physical block numbers fit the 32-bit and 48-bit fields.
- DirBlock.InsertInto: the usable region fits a 16-bit record length, and blocks whose records do not parse are only shown to keep their tail.
- DirBlock.RemoveFrom: blocks whose records do not parse are only shown to keep their tail.
- Uninitialised extents: only in `ExtentTree`, where they read as holes.
- Luks.LuksVolume.WriteAt: a segment is a whole number of cipher sectors.
- Scsi.ScsiDevice.CommandIn: commands with a data phase; TEST UNIT READY and SYNCHRONIZE CACHE, which have none, are not modelled.
- Scsi.ScsiDevice.ReadBlocks: non-empty ranges inside the capacity, which is all that `read_at` asks for; what a drive answers beyond it is not modelled.
- Scsi.ScsiDevice.WriteBlocks: the same ranges, which is all that `write_at` asks for.
- Scsi.ScsiDevice.WriteAt: a drive that reports success with nothing left over has taken the data; every other answer is arbitrary.
- Urb.UrbArena.Allocate: generations do not wrap around, which takes 2^64 attempts.
- Urb.UsbTransport.Reap: the kernel's answers are a finite script of any length.
- Urb.BulkTransfer: a retry after a drain that failed is not prevented, as in the code; the state is judged per attempt.
- BtrfsChunk.ReadLogical: the device behind the map answers every address, and exact refusal is stated for chunks that do not overlap.
- BtrfsData.ReadData: chunks and checksum items do not overlap.
- BtrfsExtent.FetchExtent: an address beyond 64 bits is refused, where the source's addition overflows.
- BtrfsCursor.Cursor.Retreat: a cursor that left the tree at the front is final and takes no further step.
