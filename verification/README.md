# A verified model of the SpiderMonkey hash table and its neighbours

The main subject is `js::detail::HashTable` (`include/js/HashTable.h`), the open-addressed, double-hashed
table under `HashMap` and `HashSet`. Three smaller pieces of the public headers follow: the merge of string
statistics (`include/js/MemoryMetrics.h`), which is a client of the table; the lists of stack roots
(`include/js/RootingAPI.h`); and the mark-bitmap arithmetic (`include/js/HeapAPI.h`).

## How the model is built

A slot is a 32-bit word and the memory for a key and a value. The word is 0 (free), 1 (tombstone), or a live
word whose bit 0 is the collision bit. The hash function is an arbitrary function from keys to 32-bit words,
scrambled and prepared as the source does it. Every request for memory has a flag `alloc` that says whether
the allocator grants it, so every result holds whatever the allocator answers.

The project has two layers.

* **What is computed.** `TableState`, `MapOperations`, `Enumeration` and `StringMerge` say for each operation what
  it does to the storage, the counters and the generation. The lemmas about these functions carry the theorems. They rest
  on `Probing` (where a hash word goes), `Layout` (the probe-path invariant, searching, inserting, removing) and
  `Rebuild` (copying to a new table, rehashing in place).
* **How it is computed.** The classes `HashTable`, `HashMap`, `Range`, `Enum`, `ZoneStats`, `RootLists` and
  `Rooted` update an array of slots and their fields in place, with the source's loops. Each method is proved to
  reach the state of the first layer, and most also state their effect on the map directly. The ghost field
  `walked` of `HashTable` counts the turns of its copying loops. `Performing` puts any legal run of calls through
  these classes: states, answers and counted turns are those of the first layer.

The invariant `Inv` says: every live word is the prepared hash of its key apart from bit 0; every slot strictly
earlier on a live entry's probe path has bit 0 set; keys are distinct; the two counters are exact; live and
removed slots together fill at most three quarters of a capacity that is a power of two from 4 to 2^24. Entries
are counted in a bag (`Bags.Bag`), so "no loss and no duplication" is equality of bags. `Rank(k, h, i)` is the
step at which the probe path of `h` reaches slot `i`.

| file | content |
|---|---|
| `Powers.dfy`, `Slots.dfy`, `Probing.dfy` | modular arithmetic, slot words, the probe sequence |
| `Bags.dfy`, `Layout.dfy`, `Rebuild.dfy` | entries of a layout, the layout invariant, both kinds of rehash |
| `TableState.dfy`, `Operations.dfy`, `MapOperations.dfy` | what operations compute, and that it is right |
| `InPlace.dfy`, `Staying.dfy`, `Rekeying.dfy` | which entries keep their slots |
| `Plans.dfy`, `Enumeration.dfy`, `AddProtocol.dfy`, `Initial.dfy` | mutating enumerations, `lookupForAdd` with a later `add`, `init` |
| `Runs.dfy`, `Amortised.dfy`, `Generation.dfy`, `Histories.dfy`, `RekeySample.dfy` | properties of whole runs |
| `LoopSteps.dfy`, `HashTable.dfy`, `HashMap.dfy`, `Enum.dfy` | the classes and their loops |
| `Performing.dfy` | runs performed on the classes |
| `StringMerge.dfy`, `ZoneStrings.dfy`; `Rooting.dfy`; `MarkBitmap.dfy` | the three smaller pieces |

## Where the code and its documentation differ

* `include/js/HashTable.h:211-213` says that pointers into the table stay valid while `generation()` is the same.
  For `rekeyAs` this is false: when the rekeyed table is overloaded and no second table can be had,
  `rehashTableInPlace` moves entries and `gen` stays. `RekeySample.RekeyMovesOthers` gives a history from `init`
  after which that happens. `Rekeying.RekeyKeepsOthers` gives the exact condition, told from the table before the
  call: in an unchanged generation every other entry keeps its slot if and only if the call does not rehash in place
  (`RehashesInPlace`: counters, collision bit, new home and allocator), or every entry's path up to its slot has only
  entries in lower slots (`Settled`). `Generation.SameGenerationSameSlots` shows the claim for all other calls, and for
  whole runs whose rekeys meet the condition.
* `addStrings` (`include/js/MemoryMetrics.h:337-348`) ignores the result of `add`, so a string whose insertion
  fails is silently dropped. `StringMerge.FourthStringIsLost` gives such zones. A string is dropped exactly under the
  guard `Operations.Refused`; `StringMerge.NothingLost` says exactly when none is, in terms of the number of
  different strings, the capacity and whether memory is granted, unless tombstones meet a table that cannot be rebuilt.

## Model

| member | source | states |
|---|---|---|
| Slots.PrepareHash | include/js/HashTable.h:1041-1049 | a prepared hash is a 32-bit even word of at least 2, so it is never confused with a free slot or a tombstone |
| Slots.PreparedWord | include/js/HashTable.h:1041-1049 | it is the product with 0x9E3779B9 on 32 bits without its last bit, or 0xFFFFFFFE where that would be a reserved word |
| Slots.ScrambleInjective | include/js/HashTable.h:1041-1043 | scrambling is injective, so different hash codes stay different but for the last bit and the reserved words |
| Slots.PreparedAlike | include/js/HashTable.h:1041-1049 | apart from 0xFFFFFFFE, two hash codes with one prepared hash are equal or scramble to words that differ in the last bit only |
| Probing.AndMask | include/js/HashTable.h:1147-1160 | masking a number bit by bit with k ones is the remainder modulo 2^k |
| Probing.HashesClosed | include/js/HashTable.h:1136-1154 | the first slot is the leading bits of the prepared hash, as many as the capacity has, and the stride the same number of bits after them, made odd |
| Probing.SlotAfterClosed | include/js/HashTable.h:1136-1160 | the slot after j applications of the double hash, with its 32-bit shifts, wrap-around and mask, is (h1 - j * h2) modulo the capacity |
| Probing.ProbePermutes | include/js/HashTable.h:1136-1160 | for every hash and every legal capacity the first `capacity` probes visit every slot, and no slot twice |
| Layout.StopFirst | include/js/HashTable.h:1189-1240 | a search stops when any slot is free, and passes neither a free slot nor the entry before its stopping point |
| Layout.SearchCorrect | include/js/HashTable.h:1189-1240 | under the invariant a search finds a live entry exactly when the key is in the map, and then that key's entry |
| Layout.FreeEntryFirst | include/js/HashTable.h:1249-1283 | when any slot is not live, `findFreeEntry` stops at the first such slot of the path, past live slots only |
| Layout.MissIsFreeEntry | include/js/HashTable.h:1243-1248 | a missed search ends exactly where `findFreeEntry` would, so the specialised copy agrees with the general search |
| Layout.MarkKeeps | include/js/HashTable.h:1219-1226 | marking passed slots loses no entry, changes no tombstone and keeps every entry reachable |
| Layout.InsertKeeps | include/js/HashTable.h:1562-1578 | inserting at the slot `findFreeEntry` returns adds exactly the entry, recycles a tombstone if there was one, and keeps every entry reachable |
| Layout.RemoveKeeps | include/js/HashTable.h:1350-1364 | freeing a slot whose collision bit is clear, or burying one whose bit is set, hides no other entry |
| Rebuild.CopiedCorrect | include/js/HashTable.h:1308-1320 | copying to a table with room keeps exactly the entries, drops all tombstones and re-establishes the invariant, even from storage whose probe paths are broken |
| Rebuild.RehashedInPlaceCorrect | include/js/HashTable.h:1396-1425 | the in-place rehash ends with exactly the same entries, no tombstone, and every entry reachable, whatever the probe paths were before |
| Rebuild.InPlaceIsAnInsertionOrder | include/js/HashTable.h:1391-1425 | collision bits aside, its result is the layout of inserting all the entries one at a time, in some order, into an empty table |
| Rebuild.RehashFromInserts | include/js/HashTable.h:1391-1425 | the witness is the placement order: from any half-way point the loop extends the layout of the entries placed so far by the remaining ones in the order in which it places them |
| Rebuild.PlaceProgress | include/js/HashTable.h:1402-1424 | each swap marks one more slot, so the outer loop ends |
| InPlace.UnmovedIffSettled | include/js/HashTable.h:1396-1425 | a rehash in place leaves every entry in its slot if and only if, for every entry, all slots before its own on its path hold entries at lower indices |
| Operations.QuarterFree | include/js/HashTable.h:1162-1169 | between operations at least a quarter of the slots are free |
| Operations.CountIsSize | include/js/HashTable.h:1476-1480 | `count()` is the number of keys in the map |
| Operations.ChangeTableSizeCorrect | include/js/HashTable.h:1287-1321 | succeeds exactly when memory is granted within the maximal capacity; then the entries are the same, the tombstones gone and the invariant holds; on failure nothing changes |
| Operations.CheckOverloadedCorrect | include/js/HashTable.h:1323-1339 | before an insertion: fails exactly when overloaded without memory, or at maximal capacity with few tombstones; otherwise one more entry fits within the load bound; a rebuilt table has no tombstone, and the same capacity when a quarter were tombstones or else double, in a new generation |
| Operations.CheckOverRemovedCorrect | include/js/HashTable.h:1342-1348 | never fails: the load bound holds afterwards whatever the allocator answers, with the same entries; an overloaded table loses all its tombstones, by a rebuild in a new generation and of the capacity above unless that must fail, and then in the same storage; any other is left alone |
| Operations.CheckUnderloadedCorrect | include/js/HashTable.h:1366-1372 | halves the table in a new generation exactly when it is underloaded and memory is granted, keeping the entries and the invariant, without tombstones and at most half full; otherwise nothing changes |
| Operations.BestLog2Largest | include/js/HashTable.h:1374-1389 | the capacity chosen is the largest, by halving, that is not underloaded, and after any halving the entries fill at most half of it |
| Operations.CompactCorrect | include/js/HashTable.h:1374-1389 | compaction keeps the entries and the invariant; exactly when the table is underloaded and there is memory it moves them, in a new generation and without tombstones, to the largest capacity by halving that is not underloaded |
| Operations.RemovePtrCorrect | include/js/HashTable.h:1609-1616 | removes exactly one key and keeps the invariant; if the capacity is more than 4, a quarter of it is at least the number of entries left, and there is memory, the table is halved in a new generation and has no tombstone; otherwise capacity and generation stay |
| Operations.LookupForAddCorrect | include/js/HashTable.h:1517-1524 | changes no entry; a hit points to the key's entry, a miss to a slot where the key can be added without being hidden |
| Operations.AddReadyStays | include/js/HashTable.h:1517-1524 | a missed pointer stays good across another `lookupForAdd` |
| Operations.AddCorrect | include/js/HashTable.h:1526-1557 | on success the key is in the map and the pointer denotes its entry, after a rehash or over a tombstone too; fails exactly when the slot is no tombstone and no room can be made, and then nothing changed; the table is rebuilt exactly when it was overloaded and the slot is no tombstone, and otherwise the slot is the one remembered |
| Operations.PutNewCorrect | include/js/HashTable.h:1582-1590 | adds exactly the key, or fails, exactly when no room can be made, with nothing changed; the table is rebuilt exactly when it was overloaded |
| Operations.RelookupOrAddCorrect | include/js/HashTable.h:1594-1607 | a present key is found and nothing changes; an absent one is added or the map stays; fails exactly when the key is new, its slot is no tombstone and no room can be made; on success the pointer denotes the key's entry |
| Operations.RekeyWithoutRehashCorrect | include/js/HashTable.h:1618-1627 | moves one value to another key with the number of entries unchanged, needing no load bound |
| Operations.RekeyAndMaybeRehashCorrect | include/js/HashTable.h:1629-1633 | the same with the load bound restored, and never failing |
| Operations.SetValueCorrect | include/js/HashTable.h:223-230 | assigning through a found pointer overwrites that key's value and keeps the invariant, the storage and the counters |
| Operations.ClearCorrect | include/js/HashTable.h:1435-1447 | the cleared table is a legal empty map of the same capacity and generation |
| MapOperations.PutCorrect | include/js/HashTable.h:222-230 | a present key is always overwritten; an absent one is added, or refused exactly under that guard with the map unchanged |
| MapOperations.RemoveKeyCorrect | include/js/HashTable.h:248-252 | removes the key if present, with the table halved or not as above, and otherwise changes nothing |
| MapOperations.RekeyAsCorrect | include/js/HashTable.h:261-265 | moves the value of a present key to a key that is not another entry's |
| Runs.StepRefines | include/js/HashTable.h:168-1633 | any one call, a whole mutating enumeration included, keeps the invariant, answers as a mathematical map would, and changes the map as its name says; it fails exactly when it must make room for a new key and none can be made |
| Runs.RunRefines | include/js/HashTable.h:168-1633 | any legal run of calls and enumerations is the same run on the mathematical map, with allocations failing arbitrarily and failed calls leaving the map alone |
| Histories.HistoryRefines | include/js/HashTable.h:1079-1633 | the same from `init` on, starting with the empty map; searches end after every history |
| Amortised.StepPays | include/js/HashTable.h:1162-1182 | the slots a call walks while resizing are covered by the potential stored and twelve credits for each key it brings into the map; an ordinary call brings at most one key and resizes at most once |
| Amortised.EnteredIs | include/js/HashTable.h:168-1633 | the keys a call brings into the map: one for an insertion that neither finds its key nor is refused and for a rekey to a new key, those of the moved entries for an enumeration, none for any other call |
| Rekeying.RekeySameKey | include/js/HashTable.h:1618-1627 | rekeying an entry to its own key leaves no more tombstones than before |
| Amortised.SweepPays | include/js/HashTable.h:950-959 | the two rebuilds of an enumeration's destructor are covered by twelve credits for each entry the plan moves, those dropped being free, and the potential stored |
| Amortised.ResizingIsAmortised | include/js/HashTable.h:1287-1372 | any legal run from an empty table walks at most twelve old slots for each key brought into the map and twice the initial capacity, whether allocations succeed or fail |
| Histories.HistoryIsAmortised | include/js/HashTable.h:1079-1372 | the same bound for every legal history from `init` on |
| Generation.SameGenerationSameSlots | include/js/HashTable.h:211-213 | over a run that ends in its first generation and whose rekeys are quiet, every entry whose key never left the map and was not rekeyed is in the same slot, with its value unless some call changed it; removals, `clear` and enumerations included |
| Generation.StepStays | include/js/HashTable.h:211-213 | one call in an unchanged generation leaves every entry whose key stays, and which it does not rekey, in its slot if and only if it is not a rekey or is a quiet one |
| Rekeying.RekeyKeepsOthers | include/js/HashTable.h:1629-1633 | a rekey keeps the generation exactly when the rekeyed table will not be overloaded or will rehash in place; then every other entry keeps its slot if and only if it does not rehash in place or the entries will be settled, both told from the table before the call; otherwise the generation is the next and the capacity told beforehand too |
| Rekeying.RekeyAsKeepsOthers | include/js/HashTable.h:261-265 | the same for `rekeyAs` by key, present or not |
| RekeySample.RekeyMovesOthers | include/js/HashTable.h:1629-1633 | the documented claim fails for rekeying: after a legal history from `init`, a `rekeyAs` keeps the generation and an entry it does not name is no longer in its slot |
| Initial.InitSmallest | include/js/HashTable.h:1079-1122 | `init(n)` picks the smallest legal capacity in which n entries stay within three quarters, at most 2^24, with no 32-bit overflow on the way |
| Initial.LengthLimit | include/js/HashTable.h:1083-1089 | the lengths accepted end at the largest power of two for which the capacity wanted is legal |
| Initial.InsertsWithoutRehash | include/js/HashTable.h:1162-1169 | from a table without tombstones, inserting new keys all succeeds without a rehash exactly when they end within three quarters |
| Initial.InitIsEnough | include/js/HashTable.h:1093-1112 | after `init(n)` the next n insertions of distinct keys succeed in the same generation, and in no smaller legal capacity would they |
| AddProtocol.SearchesKeepReady | include/js/HashTable.h:1517-1524 | a missed pointer stays good across any number of searches |
| AddProtocol.AddAfterSearches | include/js/HashTable.h:99-133 | a missed `lookupForAdd`, any searches, then `add`: the key is in the map and the pointer denotes it, or the call failed, exactly when an insertion into the table before the first of these calls is refused, and the map is as before |
| Plans.DroppingOnly | include/js/HashTable.h:168-176 | the documented loop, which only removes, is sensible for any choice of entries, and keeps exactly the others |
| Enumeration.PassKeeps | include/js/HashTable.h:896-948 | half-way through a pass every original entry is still to be visited, dropped, or under its new key, nothing else is in the map, and every entry is reachable |
| Enumeration.PassFlags | include/js/HashTable.h:924-948 | after a pass `removed` and `rekeyed` say exactly whether there was an entry to drop or to move, and each entry to be moved was moved once, although moved entries may be visited again |
| Enumeration.CloseCorrect | include/js/HashTable.h:950-959 | the postponed rehashing keeps the entries and restores the load bound; it compacts exactly when entries were removed, the table is underloaded and there is memory, and starts a new generation whenever entries were rekeyed |
| Enumeration.EnumerationCorrect | include/js/HashTable.h:896-960 | a pass that, by key and value, drops some entries and moves others to new keys ends with exactly the image of the kept entries, within the load bound, although moved entries may be visited twice; if it drops an entry of the map and there is memory, the table is not left underloaded, and otherwise its capacity is not reduced; if it moves an entry the generation is new, and if it does neither the storage stays |
| HashTables.HashTable.Initialize | include/js/HashTable.h:1079-1122 | succeeds exactly for a legal length with memory granted, and reaches the table that `Initial.InitSmallest` describes |
| HashTables.HashTable.LookupEntry | include/js/HashTable.h:1189-1240 | the probing loop ends and returns the entry, or on a miss the first tombstone passed or else the free slot, having marked exactly the slots it passed if asked to |
| HashTables.HashTable.FindFreeEntry | include/js/HashTable.h:1249-1283 | the loop ends at the first slot that is not live, having marked exactly the live ones passed |
| HashTables.HashTable.ChangeTableSize | include/js/HashTable.h:1287-1321 | the copy loop reaches the state proved right above, in fresh storage with a new generation, having walked every old slot once, or changes nothing |
| HashTables.HashTable.CheckOverloaded | include/js/HashTable.h:1323-1339 | reaches the state and status proved right above; the storage is the same while the generation is |
| HashTables.HashTable.CheckOverRemoved | include/js/HashTable.h:1342-1348 | reaches the state proved right above; the storage is the same while the generation is |
| HashTables.HashTable.RehashTableInPlace | include/js/HashTable.h:1396-1425 | both loops end, and reach the in-place layout proved right above |
| HashTables.HashTable.CompactIfUnderloaded | include/js/HashTable.h:1377-1389 | the halving loop finds the capacity proved largest above; the storage is the same while the generation is |
| HashTables.HashTable.Remove | include/js/HashTable.h:1609-1616 | removes exactly the key of a found pointer and halves the table exactly as above; the storage is the same while the generation is; the slots its copy loop walks are those that the amortised bound counts |
| HashTables.HashTable.Lookup | include/js/HashTable.h:1504-1509 | changes nothing and finds the key exactly when it is there |
| HashTables.HashTable.LookupForAdd | include/js/HashTable.h:1517-1524 | keeps the map; a hit points to the entry, a miss is ready for `add` |
| HashTables.HashTable.Add | include/js/HashTable.h:1526-1557 | adds exactly the key and the pointer denotes it, or leaves the map alone, exactly when the slot is no tombstone and no room can be made; the storage is the same while the generation is |
| HashTables.HashTable.PutNew | include/js/HashTable.h:1582-1590 | adds exactly the key, or fails exactly when no room can be made; the storage is the same while the generation is |
| HashTables.HashTable.RelookupOrAdd | include/js/HashTable.h:1594-1607 | finds a present key or adds an absent one, and the pointer denotes its entry; fails exactly when the insertion is refused; the storage is the same while the generation is |
| HashTables.HashTable.RekeyAndMaybeRehash | include/js/HashTable.h:1629-1633 | moves one value to another key, never failing; the storage is the same while the generation is |
| HashTables.HashTable.Clear | include/js/HashTable.h:1435-1447 | every slot becomes free and the map empty |
| HashTables.HashTable.Finish | include/js/HashTable.h:1449-1462 | no storage and nothing counted, in a new generation if there was storage |
| HashMaps.HashMap.Has | include/js/HashTable.h:217-219 | answers whether the key is in the map, and changes nothing |
| HashMaps.HashMap.Put | include/js/HashTable.h:222-230 | overwrites or adds; false exactly for a refused insertion; in an unchanged generation the storage is the same and every entry keeps its slot |
| HashMaps.HashMap.LookupWithDefault | include/js/HashTable.h:240-246 | the pointer is live exactly when the key ends up in the map, and then denotes its entry; absent exactly if the insertion is refused; in an unchanged generation the storage is the same and every entry keeps its slot |
| HashMaps.HashMap.Remove | include/js/HashTable.h:248-252 | removes the key if present, halving the table exactly as above; in an unchanged generation the storage is the same and every other entry keeps its slot |
| HashMaps.HashMap.RekeyAs | include/js/HashTable.h:261-265 | moves the value of a present key; in an unchanged generation the storage is the same, and every other entry keeps its slot if and only if the rekey is quiet |
| HashMaps.HashMap.RekeyIfMoved | include/js/HashTable.h:256-259 | the same for different keys; equal keys change nothing |
| Enums.Range.PopFront | include/js/HashTable.h:884-893 | moves to the next live slot, passing only slots that are not live |
| Enums.EachEntryOnce | include/js/HashTable.h:157-162 | the entries in slot order are as many as `count()`, are all the entries of the map, and none occurs twice |
| Enums.Walk | include/js/HashTable.h:157-162 | the documented loop over `all()` yields `count()` elements, every entry of the map once |
| Enums.Enum.RemoveFront | include/js/HashTable.h:924-931 | removes the front key, remembers that it did, and never moves the storage |
| Enums.Enum.RekeyFront | include/js/HashTable.h:936-948 | moves the front entry's value to another key, remembers that it did, and never moves the storage |
| Enums.Enum.Close | include/js/HashTable.h:950-959 | the destructor keeps the map and restores the invariant, as proved above; the storage is the same while the generation is; the slots its copy loops walk are those that the amortised bound counts |
| Enums.Sweep | include/js/HashTable.h:168-179 | the documented client loop, which drops or moves entries by key and value, ends with exactly the image of the kept entries, not underloaded if an entry was dropped and there is memory; the storage is the same while the generation is |
| Performing.Perform | include/js/HashTable.h:85-265 | any one call on a real map leaves the state and gives the answer of its step, and its copy loops walk exactly the slots that the amortised bound counts |
| Performing.PerformAll | include/js/HashTable.h:85-265 | the same for any legal run |
| Performing.PerformHistory | include/js/HashTable.h:1079-1633 | a real map, constructed, initialized and put through any legal history, answers as an initially empty map would, and its copy loops walk at most twelve slots for each key brought into the map and twice the initial capacity |
| Performing.AddAfter | include/js/HashTable.h:99-133 | on a real map, a missed `lookupForAdd`, searches of both kinds and `add` end with the pointer denoting the new entry, or with the map as before exactly when the insertion was refused from the start |
| StringMerge.MergeConserves | include/js/MemoryMetrics.h:240-245 | when no counter overflows, each of the three totals of the merged map is the sum of the two zones' totals |
| StringMerge.TotalsAdd | include/js/MemoryMetrics.h:240-245 | each total is that of its own counter: nothing for no string, and a further string adds its counter |
| StringMerge.AddableExactly | include/js/MemoryMetrics.h:240-245 | of legal records, exactly those are summed without wrap-around whose `isShort` agree and whose counters do not overflow |
| StringMerge.AddStringCorrect | include/js/MemoryMetrics.h:339-346 | one turn of the loop refuses the string exactly under the guard of `add`; otherwise a new string gets the whole record, and a known one keeps its `isShort` and has each counter summed at its width of 31 or 64 bits |
| StringMerge.AddAllMerges | include/js/MemoryMetrics.h:337-348 | the loop ends with the strings of both zones but the lost ones, which are all new here: a string of one zone has its whole record, one of both keeps `isShort` and has each counter summed, without wrap-around where none overflows; every total is then conserved on the rest |
| StringMerge.LossBounds | include/js/MemoryMetrics.h:337-348 | for any zone and an allocator that always answers alike, nothing is lost only if the different strings fit in three quarters of the largest capacity to be had, and always if they do so together with this zone's tombstones |
| StringMerge.NothingLost | include/js/MemoryMetrics.h:337-348 | with an allocator that always answers alike, and either no tombstones or memory granted below the maximal capacity, nothing is lost if and only if the different strings of both zones fit in three quarters of the largest capacity to be had |
| StringMerge.NothingLostBelowHalf | include/js/MemoryMetrics.h:337-348 | with memory granted, tombstones or not, nothing is lost if there are at most 2^23 different strings |
| StringMerge.FourthStringIsLost | include/js/MemoryMetrics.h:337-348 | after `init(3)` and three insertions, without memory, any other zone's new string is dropped and the map stays as it was, for every hash function |
| ZoneStrings.ZoneStats.AddStrings | include/js/MemoryMetrics.h:337-348 | this zone's map becomes that of both zones but for the new strings lost, records and counters as above, and each total is the sum of the totals without them; for an allocator that always answers alike, nothing is lost exactly when all different strings fit in three quarters of the largest capacity to be had, if this zone has no tombstones or memory is granted below the maximal capacity, and with tombstones otherwise within the two bounds of `StringMerge.LossBounds`; the other zone is unchanged |
| ZoneStrings.ZoneStats.AddString | include/js/MemoryMetrics.h:339-346 | enters a new string with its whole record, or sums a known one as above, and drops it exactly when it is new, its slot is no tombstone and no room can be made |
| Rooting.LeaveKeeps | include/js/RootingAPI.h:768-771 | the newest live root heads its kind's list, and unlinking it leaves every list exactly the remaining roots of its kind, newest first |
| Rooting.Rooted.constructor | include/js/RootingAPI.h:681-691 | the new root heads its kind's list and the other lists are untouched |
| Rooting.Rooted.Destroy | include/js/RootingAPI.h:768-771 | the asserted head is this root, and its kind's list continues at `prev` |
| Rooting.Execute | include/js/RootingAPI.h:681-771 | however scopes of several kinds nest, all their roots are entered and left in the order of the nesting, every destructor's assertion holds, and every list head is restored |
| Rooting.TraceIsNested | include/js/RootingAPI.h:681-771 | that order is last in, first out: replayed, only the newest root ever leaves, and at the end those in scope before are in scope |
| MarkBitmap.WordInChunk | include/js/HeapAPI.h:116-147 | the mark word is aligned and in the cell's own chunk, past the area the bitmap covers and before the runtime word |
| MarkBitmap.WordAndMaskAre | include/js/HeapAPI.h:136-147 | the word of a bit is the chunk's bitmap plus eight bytes for every 64 bits before it, and the mask its bit in that word |
| MarkBitmap.MarkBitmapIs | include/js/HeapAPI.h:116-124 | a chunk's bitmap starts 1032368 bytes after the address with its 20 low bits cleared |
| MarkBitmap.MarkBitsAre | include/js/HeapAPI.h:136-142 | black has the bit of the cell's index in its chunk, gray the next one |
| MarkBitmap.CellIndexIs | include/js/HeapAPI.h:40-42 | a cell's index is its offset in the chunk, the 20 low bits of the address, shifted by three |
| MarkBitmap.NumbersAre | include/js/HeapAPI.h:143-146 | a bit's word number is the bit shifted by six, and its place in the word the six low bits |
| MarkBitmap.MaskIs | include/js/HeapAPI.h:145 | the mask of a place is one shifted by it |
| MarkBitmap.LegalBit | include/js/HeapAPI.h:142 | nothing but the source's bound of 129024 bits is asked of a cell and a colour of 0 or 1 |
| MarkBitmap.SharedBit | include/js/HeapAPI.h:136-147 | two cells and colours share a word and mask exactly when they are in one chunk with equal index plus colour |
| MarkBitmap.GrayAfterMark | include/js/HeapAPI.h:186-202 | after setting one mark, a cell is gray exactly when it was, or when the mark set is its own gray bit and it is not in the nursery |
| MarkBitmap.BlackIsNotGray | include/js/HeapAPI.h:186-202 | marking a cell black, colour 0, does not change its gray answer; marking it gray, colour 1, makes it gray exactly outside the nursery |
| MarkBitmap.MarkingIsLocal | include/js/HeapAPI.h:186-202 | marking never changes the gray answer of a cell at least two cells away or in another chunk |

## Left out

- Lookup types: lookups are keys and `match` is equality of keys, so a policy whose lookup type differs from its key type is not modelled.
- HashSet: the same table with a key and no value, so it would repeat the map's results.
- Generation counter: a natural number; the 32-bit wrap-around after 2^32 rehashes is not modelled. The entry and tombstone counters never exceed 2^24.
- Debug state (`mutationCount`, `ReentrancyGuard`, the pointers' recorded generations, `METER`): no effect on the table.
- AddPtr: a value that methods take and return, not an object updated through a reference.
- Destructors, moves, placement new and the memory behind a free slot: a slot's memory is simply absent while it is not live.
- Lookups while a rekeying enumeration is open: tombstones may then fill the table, and a search needs a free slot.
- HashTables.HashTable.PlaceEntry: the inner loop of the in-place rehash is a method of its own.
- ZoneStrings.ZoneStats.AddStrings: the allocator's answers are a function of the other table's slots, and `isShort` must agree for equal strings, as the source asserts. When answers vary, or with tombstones in a table that cannot be rebuilt (memory refused, or the maximal capacity), whether the strings between the two bounds of `StringMerge.LossBounds` are lost depends on which of them meet a tombstone; that is given string by string by the guard of `AddString`.
- Generation.SameGenerationSameSlots: about slots of a table value, which has no storage identity; that the storage is the same too is promised by every method of `HashTable`, `HashMap` and `Enum` that can resize.
- Amortised.ResizingIsAmortised: counts the slots walked by `changeTableSize`. A rehash in place is not counted, since with memory refused every rekey of a full table may need one.
- Rooting.Rooted: all kinds share one element type; the reinterpretation of pointer types and poisoning checks are not modelled.
- `SkipRoot`, `Heap<T>` and its post barriers: the barrier bodies are not part of this model.
- MarkBitmap: 64-bit words only; the code that sets mark bits lives elsewhere, so marking is modelled as setting exactly the word and mask that the lookup computes.
- Floating-point and pointer hashers: the hash function is arbitrary.
- The Unicode, value-tagging, debugger and profiling headers: interfaces, constants or single bit-vector identities.
