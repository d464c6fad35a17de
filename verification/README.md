# ate: a verified model

A Dafny model of six pieces of the `ate` repository, chosen because each keeps a promise over whole runs that no single function body shows:

1. **The paged file system** (`files/src/file.rs`). A file is a two-level tree of 131072-byte pages behind two direct-mapped caches, one of bundle rows and one of page copies. `PageTree` states what reads and writes do to the tree, holes and insertions included; `PageStore` states what the cache lines and stored rows stand for; `PageHistory` tells what reads find in a page from the history of the cache alone; `PagedFile.RegularFile` is the object with its loops and caches, each method proved equal to its effect on the tree.
2. **The redo-log record format** (`lib/src/spec.rs`). `RedoLog` proves that every log reads back, that any cut-off log yields exactly its whole records, and that a byte cursor with the source's matching automaton does this.
3. **The event index** (`lib/src/index.rs`). `EventIndex` characterises each of the five tables of the indexer by the log alone.
4. **The signature plugin** (`lib/src/signature.rs`). `Signing` characterises who is listed as a signer after any feeds, and when a sender may skip a key because its receiver has seen it proven.
5. **The virtual switch** (`atenet/src/switch.rs`, `atenet/src/gateway.rs`). `Dhcp` covers address allocation over a mesh, `PortTable` the port table over announcements, deletions and snooped frames, `Forwarding` frames across a mesh of switches and gateways.
6. **Pipes and the login wizard** (`wasmer-os/src/fd.rs`, `wasmer-os/src/poll.rs`, `wasmer-ssh/src/wizard.rs`, `wasmer-os/src/wizard_executor.rs`). `Pipe` proves that no interleaving of readers loses a byte; `Wizard` proves what is held at each step of a login, and that the executor answers each question once.

Where the source changes fields or buffers in place, the model is a class with the same fields, and each method is proved against a function on values; the laws are lemmas about those functions. Clocks, randomness, cryptography, locks, the network and server answers are parameters.

## What does not hold

Each of these comes with the exact condition under which it does hold. Where the condition does not show a failing case by itself, a lemma or method exhibits one.

- *A write leaves the other bytes of a file alone.* A missing page is filled with an insertion into the vector of pages, and a missing bundle with one into the vector of bundles, so that later ones move up. A write within one page leaves the other pages alone if and only if every page behind the hole it fills reads as zeros (`PageTree.WriteDisturbsNothing`, `PageTree.BackwardWriteMovesBytes`). A write of any length changes the bytes it covers and no others if and only if there is room for it (`PageTree.WriteOverlaysIff`): where a bundle it touches is missing, everything from the first such bundle on reads as zeros; where all are there, the pages behind it in its last bundle repeat with the distance by which they move, and the rest of its last page is zero if it fills a hole before that. So a write over a hole and a stored page at the end of a bundle can be harmless where a write to the hole alone is not (`PageTree.LastPagesOfBundle`). A file is the flat file throughout a run if and only if each write of the run finds room (`PageTree.FlatThroughoutIff`), and appending always does (`PageTree.AppendedRoundTrip`).
- *A read sees the latest write.* Reads look in slot `key % 80`, writes in slot `key % 10`. After any session without a commit since the last write to a page, reads find that write if and only if the page's read slot is below 10, or another page has taken its write slot since and its read slot holds no copy made before that, or the older bytes were the same (`PageHistory.LastWriteVisibleIff`, `PageHistory.EvictionShowsExample`). The first byte of a new file reads back before a commit if and only if the key drawn for its page has a read slot below 10 (`PagedFile.WriteThenRead`). Where all keys do, no read is ever stale (`PagedFile.Session`).
- *A size survives encoding.* All 64-bit sizes do except the largest, which takes the 4-byte form (`RedoLog.SizeRoundTrip`).
- *What a sender skips as proven, its receiver has seen proven.* A successful lint keeps the two in step if and only if the receiver had seen each new key proven already or its own conversation id is among what the key signed; a failed lint keeps them so if and only if nothing new was signed first (`Signing.TransmitKeepsStepIff`, `Signing.FailedLintKeepsStepIff`, `Signing.FailedLintExample`).
- *Roots are the keys without a parent.* The table of roots holds the keys fed with a parent (`EventIndex.RootsIsLog`, `EventIndex.RootsExample`).
- *The DHCP mask gives the network.* It does if and only if the address picked is not multicast (`Dhcp.PickedMask`, `Dhcp.MulticastMaskExample`).
- *Removing a node removes all of it, and nothing else.* A promiscuous mark stands until an event drops the port it is on (`PortTable.PromiscuousIsLog`), so a departing node leaves every mark that is not on one of its ports (`PortTable.PromiscuousLeftBehind`, `PortTable.StrayMarkExample`). If nodes mark only ports of their own, the marks are exactly those of the live nodes' last announcements (`PortTable.PromiscuousIsLastSeen`). Ports are dropped by address: if a node came back at its address under a new key before its old key is deleted, the deletion takes all ports of the new one (`PortTable.LateDeleteDropsNew`).
- *The order of announcements does not matter.* Two nodes at different addresses announce themselves in either order, into any table. The peers are the same both ways. The ports are the same if and only if the two share no port. The promiscuous marks are the same if and only if neither node drops a mark the other makes, nor takes over a marked port of the other (`PortTable.UpdatesCommuteIff`). Two nodes with one MAC show the first (`PortTable.SharedMacDependsOnOrder`); a node that marks a port another has just given up shows the second, with no port shared (`PortTable.MarksDependOnOrder`).
- *A broadcast reaches every port.* The one exception is a port whose MAC the broadcast itself claims for another switch (`Forwarding.BroadcastReachesEveryPortOnce`).
- *Nothing received from a switch is sent on to another.* `atenet/README.md` says so, and that ARP is not snooped. The code snoops ARP, and a gateway answers and routes frames of peers. Frames that are not for a gateway do stay (`Forwarding.PeerFrameStaysLocal`); an ARP request or a ping leads to a frame on the wire exactly when the asker is behind another switch, has listeners behind one, or is unknown while there are peers (`Forwarding.ArpFromPeerLeavesIff`, `Forwarding.PingFromPeerLeavesIff`, `Forwarding.PeerFrameLeavesExample`); any other frame for the gateway does exactly when the gateway has a route for it to a switch from which it, or the ARP request for its destination, goes on (`Forwarding.RoutedFromPeerLeavesIff`); and whatever goes on is in the gateway's own name (`Forwarding.ProcessSources`).
- *The wizard never panics.* It can if and only if it starts with a session and no e-mail address (`Wizard.NeverPanics`, `Wizard.UnnamedPanics`). The SSH front end starts it with neither (`wasmer-ssh/src/server.rs`, lines 79 to 84) and fills in the address before the first call (`wasmer-ssh/src/handler.rs`, lines 86 and 87), so there it does not. Log statements are taken to be evaluated.
- *Each challenge gets one answer per question.* It does if and only if no feed of the round comes without data (`Wizard.AnswersMatchQuestions`).

## Model

| member | source | states |
|---|---|---|
| PageTree.ChunkIsBytes | files/src/file.rs:184-227 | one page read gives exactly the bytes of the tree at its addresses, or panics, and panics exactly when the offset lies past the end of a stored page |
| PageTree.FillBundleSlots | files/src/file.rs:339-372 | opening a bundle over a hole puts an empty bundle there and moves every later bundle up one; an existing one is left in place |
| PageTree.FillPageSlots | files/src/file.rs:390-427 | the same of the pages of a bundle |
| PageTree.WritePageMoves | files/src/file.rs:314-456 | the exact new page at every index after a page write: the patched page at its own, the page the shift law says at every other |
| PageTree.WriteDisturbsNothing | files/src/file.rs:351-427 | a write within one page leaves every other page reading as before if and only if all pages behind the filled hole read as zero |
| PageTree.UndisturbedTail | files/src/file.rs:351-427 | if a page write disturbs nothing, each page behind the hole reads as zero, by descent along the shift |
| PageTree.TailZeroUndisturbed | files/src/file.rs:351-427 | if the pages behind the hole read as zero, the page write disturbs nothing |
| PageTree.PatchBytes | files/src/file.rs:446-454 | padding and patching a page changes just the bytes written |
| PageTree.WritePageHoles | files/src/file.rs:339-372 | which bundles are missing after a page write |
| PageTree.OriginsOfOne | files/src/file.rs:314-456 | the law of moved pages for a write of several pages, on one page, is that of a page write |
| PageTree.OriginsStep | files/src/file.rs:659-697 | one page more: the law for the longer write is the shift of that page after the law for the shorter, whether its bundle is new, made for this write or was there |
| PageTree.WriteTreeMoves | files/src/file.rs:659-697 | after a write of any length: for every bundle whether it is there, for every page beside the write which old page it is, for every byte of the pages written what it is |
| PageTree.RepeatedIsZero | files/src/file.rs:339-372 | bundles that repeat behind the end of the file are all zero |
| PageTree.WriteOverlaysIff | files/src/file.rs:659-697 | a write of any length changes the bytes it covers and no others if and only if the file has room for it, as can be told before |
| PageTree.LastPagesOfBundle | files/src/file.rs:390-427 | writing over a hole and the page stored behind it, the last two of a bundle, disturbs nothing, though writing to the hole alone would |
| PageTree.RunIsFlat | files/src/file.rs:618-697 | after any run of allocations and of writes that found room, every byte and the size are those of a flat byte array |
| PageTree.FlatThroughoutIff | files/src/file.rs:618-697 | the file holds the bytes of a flat array at every point of a run if and only if each write of the run found room |
| PageTree.ReadAfterRun | files/src/file.rs:625-657 | and every read returns the flat bytes, cut at the size, unless it panics on a short page |
| PageTree.BackwardWriteMovesBytes | files/src/file.rs:351-427 | writing page 1 and then page 0 moves the first write to page 2 |
| PageTree.PackedRoom | files/src/file.rs:659-697 | a file without holes before its end and without pages behind it has room for any append |
| PageTree.PackedWrite | files/src/file.rs:659-697 | appending to a packed file keeps it packed |
| PageTree.AppendedIsPacked | files/src/file.rs:659-697 | a file built by appends is packed and holds the parts in order |
| PageTree.AppendedRoundTrip | files/src/file.rs:625-697 | any parts appended, any offset and length read: exactly that slice of the parts joined, never a panic |
| PageStore.SettledIsCurrent | files/src/file.rs:458-484 | with no dirty line, what reads see, what is current and what is stored are the same |
| PageStore.LowLinesNeverStale | files/src/file.rs:203-203 | a key whose read slot is below 10 never reads stale |
| PageStore.DropKeepsContent | files/src/file.rs:202-216 | dropping a line writes it back if dirty and loads another without changing any page's content |
| PageHistory.HistoryIs | files/src/file.rs:202-216 | after any history of reads, writes, new pages and commits, the stored row, the latest content and the read copy of every page are told by the history alone |
| PageHistory.SeenIsView | files/src/file.rs:202-216 | and so is what a read of any page finds |
| PageHistory.LastWriteVisibleIff | files/src/file.rs:429-454 | over any history without a commit since the last write to a page, exactly when reads find what was written |
| PageHistory.FlushShowsAll | files/src/file.rs:458-484 | after a commit reads find the latest content of every page, whatever the history |
| PageHistory.EvictionShowsExample | files/src/file.rs:429-444 | a write reads as before, and then shows, without a commit, once another page takes its write slot |
| PageStore.InsertBundle | files/src/file.rs:351-372 | inserting a stored bundle key is inserting an empty bundle in the tree |
| PageStore.GrowRow | files/src/file.rs:390-402 | growing a stored row grows one bundle of the tree and no other, and shares nothing |
| PageStore.InsertRowOk | files/src/file.rs:405-427 | inserting a new page key keeps the rows linked and unshared |
| PageStore.SetContent | files/src/file.rs:446-454 | changing one page's content changes one slot of one bundle of the tree |
| PagedFile.RegularFile.constructor | files/src/file.rs:36-87 | an opened file has empty caches and the stored tree and size |
| PagedFile.RegularFile.LoadBundle | files/src/file.rs:168-182 | a bundle row comes from its cache line or the store, with no difference to the caller |
| PagedFile.RegularFile.LoadPage | files/src/file.rs:202-216 | a page copy comes from its slot or the store; no content is lost by the eviction |
| PagedFile.RegularFile.WriteZeros | files/src/file.rs:301-312 | appends the given number of zeros |
| PagedFile.RegularFile.ReadPage | files/src/file.rs:131-299 | one page read returns that chunk of what the history shows of the page, adds itself to the history and changes no content |
| PagedFile.RegularFile.Read | files/src/file.rs:625-657 | the loop over pages reads, committed or not, what the history shows of each page in turn; that is what the tree holds, cut at the size, when nothing is uncommitted or all read slots are below 10; it never changes the file |
| PagedFile.RegularFile.OpenBundle | files/src/file.rs:339-372 | the growth loop and insertion give the tree with that bundle filled |
| PagedFile.RegularFile.GrowBundle | files/src/file.rs:390-402 | the growth loops extend one bundle of the tree |
| PagedFile.RegularFile.OpenPage | files/src/file.rs:405-427 | the hole at a slot is filled with a new page, or the page there is found |
| PagedFile.RegularFile.PatchPage | files/src/file.rs:429-454 | changes the content of one page, adds a write to the history, and says when reads see it at once |
| PagedFile.RegularFile.WritePage | files/src/file.rs:314-456 | the tree becomes that of one page write, the history gains that write, after a new page where there was none; without write access nothing changes |
| PagedFile.RegularFile.Write | files/src/file.rs:659-697 | the loop over pages is one write of the file; the size grows to its end; overflow, no access and empty data are told apart |
| PagedFile.RegularFile.SetSize | files/src/file.rs:109-129 | the size is set and the file is dirty |
| PagedFile.RegularFile.Fallocate | files/src/file.rs:618-623 | sets the size and moves no byte; without write access nothing changes |
| PagedFile.RegularFile.Commit | files/src/file.rs:458-484 | dropping the lines writes them back and leaves the file as it was, now clean |
| PagedFile.Locate | files/src/file.rs:138-191 | the bundle, slot and rest of an address, as divisions of the offset |
| PagedFile.Session | files/src/file.rs:618-703 | over any session of writes, allocations, commits and reads, each read with nothing uncommitted, and each read at all if read slots are below 10, returns what the changes so far make of the tree, and the flat bytes where each write found room |
| PagedFile.WriteThenRead | files/src/file.rs:625-697 | the first byte written to a new file, read before and after a commit, for every way of drawing keys |
| PagedFile.ReadOnly | files/src/file.rs:228-299 | any reads through a read-only handle return what uncached reads would, whatever keys collide |
| RedoLog.BeRoundTrip | lib/src/spec.rs:290-304 | big-endian numbers of any width read back |
| RedoLog.BeBytesAt | lib/src/spec.rs:290-329 | byte i of a number is its digit to the base 256 at that place, the most significant first |
| RedoLog.SizeRoundTrip | lib/src/spec.rs:290-329 | every 64-bit size reads back in any context, except the largest, which reads back as the largest 32-bit one |
| RedoLog.FindMagic | lib/src/spec.rs:257-288 | finds the first magic at or after a position, or none if there is none |
| RedoLog.MagicAfterGarbage | lib/src/spec.rs:257-288 | garbage without a magic is skipped, even where it ends with a part of one |
| RedoLog.RecordLayout | lib/src/spec.rs:399-427 | every byte of a written record: the magic and version, then for metadata and for data the format, the width and value of the length by its range, and the blob |
| RedoLog.RecordRoundTrip | lib/src/spec.rs:358-427 | an encoded record reads back from behind any garbage and before any bytes, and the cursor stands behind it |
| RedoLog.EntryStable | lib/src/spec.rs:358-397 | an entry read from a log reads the same when the log grows |
| RedoLog.NoEntryInCutRecord | lib/src/spec.rs:358-397 | no entry is read from a cut-off record |
| RedoLog.PrefixRecovers | lib/src/spec.rs:358-427 | a log cut at any byte reads back as exactly the records whole before the cut, at their offsets |
| RedoLog.LogRoundTrip | lib/src/spec.rs:358-427 | any list of records written reads back as that list |
| RedoLog.MatchByte | lib/src/spec.rs:262-284 | one step of the matching automaton |
| RedoLog.MatchStep | lib/src/spec.rs:262-284 | the automaton keeps the longest part of the magic it has seen, and hits exactly at a magic |
| RedoLog.LogCursor.ReadVersion | lib/src/spec.rs:257-288 | the byte loop stops behind the first magic, or at the end if there is none |
| RedoLog.LogCursor.ReadBlobSize | lib/src/spec.rs:290-304 | reads a size of any width, or fails |
| RedoLog.LogCursor.ReadFormat | lib/src/spec.rs:331-339 | reads one of the six known formats, or fails |
| RedoLog.LogCursor.Read | lib/src/spec.rs:358-397 | one entry is read as the format says, with its offset |
| RedoLog.LogCursor.WriteBlobSize | lib/src/spec.rs:306-329 | appends the size in its form |
| RedoLog.LogCursor.Write | lib/src/spec.rs:399-427 | appends the encoding of a record and returns its header's offset |
| RedoLog.WriteAll | lib/src/spec.rs:399-427 | after any writes, each returned header still leads back to its record |
| RedoLog.WriteThenSeek | lib/src/spec.rs:358-427 | seeking to the header of any record of a written log reads that record |
| RedoLog.Load | lib/src/spec.rs:358-397 | the reading loop gives all entries from a position to the end |
| EventIndex.FirstTombstoneAt | lib/src/index.rs:51-66 | the key a header removes is that of its first tombstone |
| EventIndex.DataKeyAt | lib/src/header.rs:37-46 | the key a header is about is that of its first entry with data or a tombstone |
| EventIndex.WhenAt | lib/src/meta/core.rs:196-203 | its time is that of its first timestamp, or zero |
| EventIndex.FeedTouches | lib/src/index.rs:51-95 | what one event does to the entry of one key: removed, updated or left alone |
| EventIndex.PresentIffCounted | lib/src/index.rs:51-95 | a key is present if and only if it was fed after its last tombstone |
| EventIndex.PrimaryIsLog | lib/src/index.rs:51-128 | its leaf holds the time of the first such event, and the time and hash of the last |
| EventIndex.RootsIsLog | lib/src/index.rs:68-80 | a key is in the table of roots if and only if an event with a parent fed it after its last tombstone |
| EventIndex.RootsExample | lib/src/index.rs:68-80 | a root that has a parent, and a key without a parent that is no root |
| EventIndex.SecondaryIsLog | lib/src/index.rs:96-155 | the child lists and the parent table are inverse to each other, each child listed once, in the order last placed |
| EventIndex.ParentsIsLog | lib/src/index.rs:96-135 | a key's parent is the one of the last event that placed it, if no tombstone came after |
| EventIndex.UploadsIsLog | lib/src/index.rs:115-117 | the delayed upload known for a point of the log is the last one fed for it by an event that is no tombstone |
| EventIndex.LookupSecondaryIsLog | lib/src/index.rs:137-148 | looking up a collection gives the leaves of exactly the keys that have data and were last placed in it, in placing order |
| EventIndex.AttachInverse | lib/src/index.rs:96-114 | moving a child keeps the two tables inverse |
| EventIndex.BuryInverse | lib/src/index.rs:54-65 | so does a tombstone |
| EventIndex.BinaryTreeIndexer.RemoveParent | lib/src/index.rs:97-102 | takes a child out of the parent table and out of its list |
| EventIndex.BinaryTreeIndexer.FeedData | lib/src/index.rs:67-95 | creates or updates the leaf of a key |
| EventIndex.BinaryTreeIndexer.FeedParent | lib/src/index.rs:96-114 | moves a child to a collection |
| EventIndex.BinaryTreeIndexer.Feed | lib/src/index.rs:51-121 | one event, tombstone, data and parents |
| EventIndex.IndexLog | lib/src/index.rs:51-121 | feeding a log leaves the index the lemmas speak of |
| Signing.AbsorbMembers | lib/src/signature.rs:104-181 | a feed is accepted if and only if all its signatures pass, and lists exactly the keys of those that passed before the first failure |
| Signing.ListedIffWitnessed | lib/src/signature.rs:90-187 | over any feeds and resets, a key is listed for a hash if and only if some feed since the last reset held a passing signature of it, with all before it passing |
| Signing.KeysAreFed | lib/src/signature.rs:109-119 | every known public key was fed since the last reset and is stored under its own hash |
| Signing.ListedIsVerified | lib/src/signature.rs:104-187 | where signatures are checked, each listed key verified a signature over a list holding the hash |
| Signing.ClientTakesAll | lib/src/signature.rs:120-166 | a client accepts every feed, and over any feeds and resets lists exactly the keys of all signatures fed since the last reset, checked or not |
| Signing.ConversationIrrelevant | lib/src/signature.rs:104-181 | a conversation never changes who is listed or what is accepted |
| Signing.LintOutcome | lib/src/signature.rs:208-301 | in every mode, linting succeeds if and only if every needed key can sign, and marks as proven exactly those that signed before the first failure |
| Signing.LintTeaches | lib/src/signature.rs:239-297 | in every mode, exactly which public keys a successful lint teaches any receiver: those of the keys it signed with that its chain lacks, and in centralized mode all of them |
| Signing.LintAnnouncesIff | lib/src/signature.rs:239-297 | so a receiver knows every key the lint signed with if and only if it had those that a distributed chain does not announce again |
| Signing.DistributedIsAccepted | lib/src/signature.rs:104-301 | a receiver in distributed mode with at least the writer's keys accepts whatever the writer could sign, and lists every event with every key it requires |
| Signing.SignedIsListed | lib/src/signature.rs:104-301 | over any batches by any writers on a distributed chain, each event of each batch that could be signed is, at the end, listed as signed by every key it requires |
| Signing.LintAccepted | lib/src/signature.rs:208-301 | in every mode, any receiver that knows the announced keys accepts all a successful lint produced, records it, and proves exactly the keys that signed its conversation |
| Signing.TransmitOutcome | lib/src/signature.rs:104-301 | the states of both ends after a lint and the feed of what it produced |
| Signing.DeliveredIsTaken | lib/src/signature.rs:104-301 | over any run with a shared id and no lint failing half-way, each event of each delivered batch is, at the end, listed as signed by every key it needs, or the receiver itself has seen that key proven |
| Signing.TransmitKeepsStepIff | lib/src/signature.rs:152-297 | exactly when, after a successful lint, all the sender counts as proven was proven to the receiver |
| Signing.FailedLintKeepsStepIff | lib/src/signature.rs:208-297 | exactly when a failed one does |
| Signing.AlwaysInStep | lib/src/signature.rs:104-301 | over any run of lints and feeds with a shared id and no lint failing half-way, all the sender counts as proven was proven to the receiver |
| Signing.FailedLintExample | lib/src/signature.rs:239-297 | a lint that signs for one key and then lacks another leaves the sender ahead |
| Signing.SignaturePlugin.constructor | lib/src/signature.rs:82-88 | starts empty and distributed |
| Signing.SignaturePlugin.Feed | lib/src/signature.rs:104-181 | learns the keys, then takes signatures until one fails |
| Signing.SignaturePlugin.LearnKeys | lib/src/signature.rs:109-117 | the loop that stores public keys under their hashes |
| Signing.SignaturePlugin.FeedSignature | lib/src/signature.rs:121-175 | one signature: checked, recorded, proven in the conversation |
| Signing.SignaturePlugin.Clear | lib/src/signature.rs:183-186 | forgets all keys and signatures |
| Signing.SignaturePlugin.SignWith | lib/src/signature.rs:239-297 | signs for one key, or fails for want of it |
| Signing.SignaturePlugin.MetadataLintMany | lib/src/signature.rs:208-301 | the loop over the sorted, distinct, unproven keys |
| Signing.Replay | lib/src/signature.rs:104-187 | feeding and resetting leaves the state the lemmas speak of |
| Dhcp.PickIsLowestFree | atenet/src/switch.rs:477-518 | the search finds the lowest free candidate of the first range that has one, or nothing if there is none at all |
| Dhcp.PickedIsAHost | atenet/src/switch.rs:477-518 | an address found is free and strictly inside one of the ranges |
| Dhcp.PickedIsFree | atenet/src/switch.rs:477-518 | with aligned ranges that do not overlap, it is the network, gateway or broadcast address of none of them |
| Dhcp.AlignedFits | atenet/src/switch.rs:477-518 | the arithmetic of the search overflows for no aligned range |
| Dhcp.AllocateEffect | atenet/src/switch.rs:422-522 | an allocation touches one entry of one node; an address granted is held by nobody else |
| Dhcp.AllocateGrants | atenet/src/switch.rs:422-522 | what an allocation grants: the address the client holds alone, or else the lowest free one of the first range that has one, or nothing if all are taken |
| Dhcp.RefusedIff | atenet/src/switch.rs:589-642 | a discovery is refused if and only if the client holds no address alone and every candidate of every range is taken |
| Dhcp.ServedWhileRoom | atenet/src/switch.rs:422-522 | a client is served as long as fewer others have leases than some range has addresses for hosts |
| Dhcp.AllocateAgain | atenet/src/switch.rs:422-475 | asking again gives the same address and changes nothing |
| Dhcp.NeverShared | atenet/src/switch.rs:422-522 | over any run of allocations, releases and joins on a synchronised mesh, no two MACs share an address |
| Dhcp.RenewedHoldsAlone | atenet/src/switch.rs:422-522 | from any mesh, however conflicted, over any run of allocations, drops, joins and departures, whoever has renewed and still has an address holds it alone; the rest keep what they had |
| Dhcp.RepairsEverything | atenet/src/switch.rs:422-522 | so once all that stay have renewed, no conflict is left |
| Dhcp.KeepsAlone | atenet/src/switch.rs:422-522 | an address held alone stays so as long as nothing unsynchronised brings it in |
| Dhcp.OfferIsHonoured | atenet/src/switch.rs:589-642 | whatever happens between offer and request, the request for the offered address is acknowledged, and any other refused |
| Dhcp.MaskGivesNetwork | atenet/src/switch.rs:597-620 | address and mask give the network's address, in 32-bit arithmetic, if and only if it is not the second address of a network of two |
| Dhcp.PickedMask | atenet/src/switch.rs:597-620 | the mask sent with a picked address gives its network if and only if the address is not multicast |
| Dhcp.MulticastMaskExample | atenet/src/switch.rs:597-620 | a range of multicast addresses, the address picked from it and its useless mask |
| Dhcp.DhcpServer.Survey | atenet/src/switch.rs:436-452 | the loops over nodes and leases find the address held and all those taken |
| Dhcp.DhcpServer.SearchIn | atenet/src/switch.rs:477-518 | the loop over one range |
| Dhcp.DhcpServer.Search | atenet/src/switch.rs:477-518 | the loop over the ranges |
| Dhcp.DhcpServer.AllocateIpv4 | atenet/src/switch.rs:422-522 | keeps, replaces or grants a lease |
| Dhcp.DhcpServer.Process | atenet/src/switch.rs:589-642 | the reply to a discovery or request, its mask, and the lease behind it |
| Dhcp.DhcpServer.DropPort | atenet/src/switch.rs:1137-1149 | a dropped port gives up its lease |
| PortTable.TableIsLastSeen | atenet/src/switch.rs:905-1095 | after any orderly run of updates, removals, snooped frames and new ports, the ports and peers are exactly the local ports and what each live node last announced or was heard with since; orderly: whoever is live at a time has an address and MACs of its own; once deleted, a node may come back elsewhere or under another key |
| PortTable.OrderlySeparates | atenet/src/switch.rs:1033-1095 | in an orderly run no two live nodes have an address or a port in common at any time |
| PortTable.OrderDoesNotMatter | atenet/src/switch.rs:905-1095 | two orderly runs in which each node was last announced alike and heard with the same MACs since leave the same ports and peers, and the same promiscuous ports too if nodes mark only ports of their own |
| PortTable.PromiscuousIsLog | atenet/src/switch.rs:1033-1095 | after any run at all, a port is promiscuous if and only if some announcement marked it and no later event dropped it |
| PortTable.OrderlyForgets | atenet/src/switch.rs:1033-1095 | in an orderly run an event drops exactly the ports its node last announced or was heard with since |
| PortTable.StandingPortIsLastSeen | atenet/src/switch.rs:1033-1095 | in an orderly run a standing mark on a port its node announced with it is that node's last word, so every stray mark was put on something else |
| PortTable.PromiscuousIsLastSeen | atenet/src/switch.rs:1033-1095 | if nodes mark only ports of their own, the promiscuous ports are exactly those of the last announcements of the live nodes |
| PortTable.PromiscuousLeftBehind | atenet/src/switch.rs:1033-1058 | after any orderly run, exactly what a departing node leaves behind, and when that includes none of its last marks |
| PortTable.StrayMarkExample | atenet/src/switch.rs:1033-1095 | a mark that outlives its retraction and its node |
| PortTable.UpdatesCommuteIff | atenet/src/switch.rs:1060-1095 | in any table, two nodes announcing themselves in either order leave the same peers; the same ports if and only if they share none; and the same promiscuous marks if and only if neither drops a mark the other makes nor takes over a marked port of the other |
| PortTable.MarksDependOnOrder | atenet/src/switch.rs:1060-1095 | two runs that differ in the order of the last two announcements only, of nodes that share no port, and leave different marks |
| PortTable.LateDeleteDropsNew | atenet/src/switch.rs:1033-1095 | in any table, exactly what the deletion of an old key takes from a node announced at the same address under a new one: all its ports, their marks and nothing else |
| PortTable.SharedMacDependsOnOrder | atenet/src/switch.rs:1060-1095 | two nodes announcing one MAC: the table depends on who came last |
| PortTable.DataPlane.ForgetPorts | atenet/src/switch.rs:1033-1058 | the loop drops just the ports behind one address |
| PortTable.DataPlane.UpdateNode | atenet/src/switch.rs:1060-1095 | a node's announcement replaces its ports |
| PortTable.DataPlane.RemoveNode | atenet/src/switch.rs:1033-1058 | a node's departure removes its ports and its peer entry |
| PortTable.DataPlane.HearFrom | atenet/src/switch.rs:905-977 | a frame heard from a peer puts its MAC behind that peer |
| PortTable.DataPlane.NewLocalPort | atenet/src/switch.rs:284-305 | a new port is local |
| Forwarding.FindRangeIsFirst | atenet/src/gateway.rs:142-146 | the range found is the first that holds the address |
| Forwarding.UnicastIsCounted | atenet/src/switch.rs:714-903 | how many copies of any unicast frame, from a port or a peer, go where: one to its port and each promiscuous one here, one to each peer behind which there is such a port if it may go on; or, to an unknown port, one everywhere |
| Forwarding.LocalFrameArrives | atenet/src/switch.rs:838-859 | a frame between two ports of one switch reaches its destination, once, and nobody else |
| Forwarding.RemoteFrameArrives | atenet/src/switch.rs:838-859 | a frame to a port of another switch crosses the wire once and is given to that port, once, and to nobody else |
| Forwarding.PingIsAnswered | atenet/src/gateway.rs:170-268 | the answer to a ping has its two addresses exchanged and is otherwise the same, and goes to the asker and whoever hears its frames |
| Forwarding.ArpIsAnswered | atenet/src/gateway.rs:270-316 | the answer to an ARP request names the gateway, and goes to the asker and whoever hears its frames |
| Forwarding.GatewayArpFloods | atenet/src/switch.rs:806-836 | a frame of ARP type for the gateway goes to each peer once, if frames may go on, and nowhere else; other junk for it goes nowhere |
| Forwarding.SwitchLearns | atenet/src/switch.rs:714-977 | all that a frame which is not for the gateway leaves behind is what its switch has snooped from it; to a group address it is not sent anywhere |
| Forwarding.PingTeaches | atenet/src/gateway.rs:170-268 | a ping leaves behind what its switch has snooped from it and from its answer |
| Forwarding.AddressesByExample | atenet/src/switch.rs:905-977 | which MAC and IPv6 addresses count as those of hosts, and which addresses lie in a network, on standard ones |
| Forwarding.FindRouteIsFirst | atenet/src/gateway.rs:141-146 | the route taken is the first one with a range that holds the address, and the range the first there; none only if no range of any route does |
| Forwarding.RoutedIsCounted | atenet/src/gateway.rs:99-168 | exactly which frames a routed one becomes: from the gateway, to the MAC the route's switch has noted, one hop less, in that switch's ports and on its wire |
| Forwarding.UnknownIsAskedFor | atenet/src/gateway.rs:99-168 | a frame to an address whose MAC the route's switch has not noted is not passed on; that switch asks each of its ports and peers, once, for that address in the name of the gateway of the range |
| Forwarding.HeardIsReached | atenet/src/switch.rs:905-977 | once a host has answered an ARP request or spoken first, a frame for its address at a gateway with a route to its switch is given to it, once |
| Forwarding.HopsBounded | atenet/src/gateway.rs:99-168 | however switches and gateways are connected, a frame crosses at most as many gateways as its hop limit allows |
| Forwarding.OutboundHops | atenet/src/gateway.rs:99-168 | the same of the frame a gateway routes |
| Forwarding.ProcessSources | atenet/src/switch.rs:714-977 | whatever leaves is from the frame's sender or a gateway; of a frame that may not be forwarded, only a gateway's frames go on the wire |
| Forwarding.PeerFrameStaysLocal | atenet/src/switch.rs:1019-1025 | a frame received from another switch, unless for the gateway, is given to local ports only |
| Forwarding.ArpFromPeerLeavesIff | atenet/src/gateway.rs:270-316 | exactly when a peer's ARP request for the gateway puts a frame on the wire |
| Forwarding.PingFromPeerLeavesIff | atenet/src/gateway.rs:170-268 | exactly when a peer's ping for the gateway does |
| Forwarding.RoutedFromPeerLeavesIff | atenet/src/gateway.rs:99-168 | exactly when any other frame of a peer for the gateway puts one on the wire: it has a route and hops left, and from the route's switch it goes on, or the ARP request for its destination does |
| Forwarding.AskedAgainIff | atenet/src/switch.rs:535-587 | an address that was asked for is asked for again once five seconds have passed, and no sooner |
| Forwarding.ArpFromPeerIsAnswered | atenet/src/gateway.rs:270-316 | a peer's host asking in its own name always gets its answer over the wire |
| Forwarding.PeerFrameLeavesExample | atenet/src/gateway.rs:270-316 | one such frame |
| Forwarding.RelayingEnds | atenet/src/switch.rs:1019-1025 | frames between switches that are not for a gateway each arrive at most once and put nothing new on the wire, in any order and whatever was learned |
| Forwarding.BroadcastReachesEveryPortOnce | atenet/src/switch.rs:751-791 | in a full mesh of any size, with every copy relayed at its switch in any order until none is left: relaying ends, and each local port of each switch has the broadcast exactly once, its sender never, with one exact exception |
| Forwarding.SnoopedPort | atenet/src/switch.rs:905-977 | exactly when snooping takes a local port away |
| Forwarding.Fabric.SendToPorts | atenet/src/switch.rs:761-767 | the loop gives one copy to each local port but the sender |
| Forwarding.Fabric.SendToPeers | atenet/src/switch.rs:783-791 | the loop floods one copy to each peer |
| Forwarding.Fabric.SendToEars | atenet/src/switch.rs:861-903 | the loop over the promiscuous ports gives each local one a copy and gathers the addresses of the others, each once |
| Forwarding.Fabric.SendToPromiscuous | atenet/src/switch.rs:861-903 | the loops give one copy to each promiscuous port, and one to each switch that has some |
| Forwarding.Fabric.DoBroadcast | atenet/src/switch.rs:751-781 | a broadcast: answered by the gateway or the DHCP server, or copied |
| Forwarding.Fabric.DoToPort | atenet/src/switch.rs:838-859 | a unicast frame to a known, unknown or gateway address |
| Forwarding.Fabric.DoProcess | atenet/src/switch.rs:714-749 | the whole reaction of a switch to a frame |
| Forwarding.Fabric.DoForGateway | atenet/src/switch.rs:806-836 | a frame for the gateway: ping, own traffic or routing |
| Forwarding.Fabric.DoOutbound | atenet/src/gateway.rs:99-168 | routing to a peered switch, asking by ARP where the address is unknown |
| Forwarding.Fabric.DoAskFor | atenet/src/switch.rs:535-587 | an ARP request in the gateway's name, for an address in a range that was not asked for in the last five seconds |
| Pipe.BytesConserved | wasmer-os/src/fd.rs:279-362 | over any interleaving of senders, hang-ups, message reads, byte reads and polls: bytes given, buffered and queued are, in order, the bytes sent |
| Pipe.AttemptConserves | wasmer-os/src/fd.rs:508-578 | one turn of a byte read loses nothing, whatever error it ends with |
| Pipe.ReadMessageConserves | wasmer-os/src/fd.rs:279-362 | nor does a message read |
| Pipe.MessagesStayWhole | wasmer-os/src/fd.rs:279-362 | without byte reads, each message that has bytes is given whole, as one answer, with its flag, in order, whatever polls come between |
| Pipe.FlagIsLastTaken | wasmer-os/src/fd.rs:279-362 | over any run at all: what was sent before the last sender hung up is what the pipe took in, the queue is its end, the flag is that of the last message taken off, and streams stay streams |
| Pipe.MovedMessageEnds | wasmer-os/src/fd.rs:290-293 | a message that a poll or a byte read moved to the buffer reads as itself, and where messages are kept apart its end then reads as an empty one, once |
| Pipe.MessageIsServed | wasmer-os/src/fd.rs:279-362 | exactly when a message read waits or fails, and what it gives otherwise: the buffer, the end of a message, or the next message with its flag |
| Pipe.ReadsDrain | wasmer-os/src/fd.rs:279-362 | each message read takes one thing off a pipe as long as anything is there |
| Pipe.SentIsRead | wasmer-os/src/fd.rs:279-362 | after any run without byte reads, a reader that reads as often as something waits has brought every message sent that has bytes, whole, with its flag and in order, and left nothing |
| Pipe.EndOfFileOnce | wasmer-os/src/fd.rs:303-321 | on a drained pipe a reader is told of the end once; whatever others do after, it gets an error |
| Pipe.ReadIsServed | wasmer-os/src/fd.rs:508-578 | an undisturbed blocking read gives a non-empty prefix of what is there within one turn more than messages wait, the end if nothing can come, and waits otherwise |
| Pipe.AttemptsConserve | wasmer-os/src/fd.rs:508-578 | a blocking read of any number of turns loses nothing |
| Pipe.ReactorPipeReceiver.Fill | wasmer-os/src/fd.rs:523-534 | the next message goes to the end of the buffer, with its flag, and closes a message in message mode |
| Pipe.ReactorPipeReceiver.PollReady | wasmer-os/src/poll.rs:50-95 | exactly when a poll finds data, how much, and what it moves |
| Pipe.Fd.PollRead | wasmer-os/src/fd.rs:279-321 | a message read does what the conservation lemmas speak of |
| Pipe.Fd.TryRead | wasmer-os/src/fd.rs:513-568 | so does one turn of a byte read |
| Pipe.ReadingEnds | wasmer-os/src/fd.rs:508-578 | a blocking read loses no byte however others send, hang up, poll and read before each of its turns |
| Pipe.AloneIsAttempts | wasmer-os/src/fd.rs:508-578 | with nobody else there it is the undisturbed read |
| Pipe.ReactorPipeReceiver.Suffer | wasmer-os/src/fd.rs:279-362 | what others do to a pipe between two turns of a read |
| Pipe.Fd.Read | wasmer-os/src/fd.rs:508-578 | the loop ends with the first turn that has an answer, whatever others do before each turn, and no byte is lost |
| Wizard.AlwaysSound | wasmer-ssh/src/wizard.rs:132-431 | in every run, whatever the user and the server answer: sudo prompt and shell have a session, the end has a message, verification and terms have address and password |
| Wizard.TerminateIsFinal | wasmer-ssh/src/wizard.rs:423-431 | no call leaves the end, and none but a failure leaves the shell; neither changes the session |
| Wizard.PanicsIff | wasmer-ssh/src/wizard.rs:248-281 | the one call at which a sound wizard panics |
| Wizard.NeverPanics | wasmer-ssh/src/wizard.rs:132-431 | started with an address or without a session it never does, and with neither lets nobody in |
| Wizard.UnnamedPanics | wasmer-ssh/src/wizard.rs:248-281 | started with a session and no address it panics once the sudo prompt is skipped |
| Wizard.SessionIsGranted | wasmer-ssh/src/wizard.rs:547-755 | a new session was granted by the server to a user with a password, and raised rights were granted for a code that was given |
| Wizard.StageIff | wasmer-ssh/src/wizard.rs:132-425 | which stage a call leads to, if and only if which answer and which reply; if none, the run ends |
| Wizard.StageIsEarned | wasmer-ssh/src/wizard.rs:132-425 | wherever a run stands, a call led there and it stayed since: to the login because the address is registered, to the sign-up because it is not, to the shell because a session was raised, left as it was, or just granted |
| Wizard.TypedIsHeld | wasmer-ssh/src/wizard.rs:132-425 | passwords, codes and terms are held as typed and as the server gave them |
| Wizard.PasswordIsTyped | wasmer-ssh/src/wizard.rs:132-425 | in any run, whoever is to verify an address or to agree to terms has the password last typed at the login, or typed twice at the sign-up |
| Wizard.RegisteredSignsIn | wasmer-ssh/src/wizard.rs:132-537 | a registered user is asked for a password, then for a code, and is let in, with raised rights if a code was accepted |
| Wizard.NewcomerSignsUp | wasmer-ssh/src/wizard.rs:132-537 | somebody new is asked for a password twice, for agreement if there are terms, for the code sent, and is let in |
| Wizard.EndNamesCause | wasmer-ssh/src/wizard.rs:132-425 | however a run goes on after its end, its message names the one call that ended it |
| Wizard.SittingNamesCause | wasmer-os/src/console.rs:357-392 | and so whoever is sent away at the console is told why |
| Wizard.SignInEnds | wasmer-ssh/src/wizard.rs:132-425 | after five calls, and one for each time the server brought up new terms, the wizard is at the shell or the end |
| Wizard.FeedConverses | wasmer-os/src/wizard_executor.rs:32-83 | the stack of reversed prompts and the drained answers behave as asking the questions in order |
| Wizard.AnswersMatchQuestions | wasmer-os/src/wizard_executor.rs:32-83 | over any feeds and any wizard: it is called exactly when a round is over, with all that was fed, in order; one answer per question if and only if no feed lacked data |
| Wizard.SittingFits | wasmer-os/src/console.rs:357-392 | in any sitting at the console, every call of the wizard carries one answer for each of its questions |
| Wizard.SittingMoves | wasmer-os/src/console.rs:357-392 | so a line at the login prompt always reaches the login, and every sitting ends |
| Wizard.SshWizard.constructor | wasmer-ssh/src/server.rs:79-84 | starts at the first step |
| Wizard.SshWizard.Fail | wasmer-ssh/src/wizard.rs:428-431 | ends with the given message |
| Wizard.SshWizard.DoLogin | wasmer-ssh/src/wizard.rs:547-622 | the login request: its result for each reply, and the session it leaves |
| Wizard.SshWizard.DoSudo | wasmer-ssh/src/wizard.rs:680-755 | the sudo request |
| Wizard.SshWizard.CreateUser | wasmer-ssh/src/wizard.rs:757-808 | the sign-up request |
| Wizard.SshWizard.ProcessResponse | wasmer-ssh/src/wizard.rs:132-425 | one call of the wizard moves it as the lemmas say, or panics when they say so, and keeps it sound |
| Wizard.SshWizard.Advance | wasmer-ssh/src/wizard.rs:437-537 | and answers with the questions of its new step, the shell or the end |
| Wizard.WizardExecutor.Ask | wasmer-os/src/wizard_executor.rs:59-70 | the questions are stacked in reverse and the first is put |
| Wizard.WizardExecutor.Feed | wasmer-os/src/wizard_executor.rs:32-83 | one feed of the executor and its wizard together |

## Left out

- Failures of the object store under the paged file system: rows are maps, loads of linked keys succeed, and a page guard is written back when dropped if and only if it is dirty.
- Generation of primary keys: new keys come from an injective stream of unused keys.
- Extended attributes, times, ownership and directories of the file system.
- PagedFile.Session: writes whose end does not fit 64 bits are excluded here; PagedFile.RegularFile.Write says what they do.
- PageTree.RunIsFlat: for the end of a run alone the condition is sufficient only, since a later write may cover bytes that moved; it is exact for each write and for all points of a run together.
- The log's file handling, rotation and the in-memory or on-disk backends behind the record format.
- The iteration queries of the event index.
- The cryptography behind hashes and signatures: a parameter, correct where a lemma says so.
- Resetting a conversation when a session ends.
- Expiry of the IP caches, UDP transport and packet encryption. A switch's clock is part of its state and stands still while it handles a frame.
- Forwarding.RoutedFromPeerLeavesIff: where the route's switch has the gateway's own MAC noted for the destination, the frame is one for the next gateway; the law holds there again and is not unfolded along the chain.
- The bytes of DHCP, ARP and ICMP packets: frames carry the fields the switch looks at.
- Promiscuous copies of broadcast and gateway traffic: the source asks for them only when no port is promiscuous, and then sends none, so the model has no such step.
- Descriptors without a receiver, writing to descriptors, and the closed flag of a poll.
- The texts of the wizard, the echo of prompts, the message of the day and the QR code.
- The pattern an e-mail address must match and the words that count as agreement: parameters.
