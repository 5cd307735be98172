# A verified model of the LaunchDarkly C server SDK

The SDK keeps a versioned copy of feature flags and segments, evaluates flags for
users against that copy, and sends summaries of what it evaluated. This project models
the six parts of it whose correctness is hardest to see, and proves what each is for:

* **JSON text** (`JsonTree`, `JsonNumber`, `Bits`, `JsonString`, `JsonParse`, `JsonText`,
  `JsonPrinter`, `JsonCompare`): the recursive-descent parser and the printer over a
  growing buffer, the string decoder with its output size, and comparison of trees.
* **Stores** (`StoreData`, `MemoryStore`, `CacheSpec`, `Backend`, `PutSpec`, `CachingWrapper`,
  `CachingRun`, `Redis`, `RedisPool`, `RefCountSpec`, `RefCount`, `StreamEvents`,
  `StreamMeaning`): the memory store, the cache in front of a persistent store, the optimistic transactions of
  the Redis backend under every interleaving, its connection pool, and the reference
  counts that hold values.
* **Evaluation** (`FlagSchema`, `Rollout`, `Matching`, `Evaluate`, `FlagMeaning`,
  `EvaluateSpec`, `EvaluateEnds`, `EvaluateRun`, `EvaluateTotal`): prerequisites, targets, rules,
  segments and percentage rollouts, and for which flags evaluation returns.
* **Server-sent events** (`Sse`, `SseWire`): the incremental line parser, and streams as a
  server writes them.
* **Events** (`JsonObject`, `EventSpec`, `FeatureEvents`, `SummaryJson`, `SummaryMeaning`,
  `EventProcessor`, `EventSender`, `LruSpec`, `Lru`): feature, debug and index events, the summary of
  evaluations, the bounded queue, the cache of user keys, and sending with one retry.
* **Stream reconnects** (`Streaming`): attempts, waits and permanent failure.

A C string is a `string` with one `char` per byte. Numbers are reals; which reals are
doubles, and that seventeen printed digits read back as the same double, is what a
`NumberCodec` stands for. Clocks, random numbers, UUIDs, the network and whether a
request could be set up are parameters. A mutex or read-write lock makes the stretch of
code under it one step. C functions whose fields change in place are classes here, and
every such method is proved against a function of the state before the call.

Facts the proofs settle where a reader might expect otherwise:

* Printing never fails on depth; parsing refuses exactly the trees nested deeper than
  1000 (`JsonText.RoundTrip`).
* An upsert that the backend refuses as outdated is served by the cache if no current
  entry is there (`CacheSpec.StaleUpsertIsServed`). With a backend that forgets deleted
  items, as Redis does, the converse also happens: an older item is written over a
  deleted one while the cache keeps saying deleted (`CacheSpec.OlderOverDeletedIsHidden`).
  `CacheSpec.UpsertAgreesExactlyWhenSafe` gives the condition for agreement, both ways.
  The disagreement stays with that item and its kind's list, and ends with the TTL, a newer
  upsert or a put (`CachingRun.Run`). A write whose reply is lost may have taken effect
  behind an untouched cache; doubt covers that too (`CacheSpec.LostKeeps`).
* An upsert refused by Redis returns its connection still watching the hash. If that
  hash is then written, the next put on the connection is thrown away
  (`Redis.PutFailsExactlyWhenSpoiled`, `Redis.RefusedUpsertSpoilsNextPut`). On a connection
  that watches nothing a put always commits.
* A batch whose first failure happens in the first millisecond of the clock, or whose
  request could not be prepared at the first attempt, is never sent again
  (`EventSender.RetriedExactlyWhenClockReads`, `EventSender.Sender.Poll`).
* Giving an item counted more than once a new list of associates breaks the counts
  unless both lists hold the same entries (`RefCountSpec.AssociationAgrees`,
  `RefCount.CountedTwiceBreaks`).
* A stream parser used again after `LDSSEParserDestroy` behaves like a new one exactly
  when every dispatch had succeeded and no partial line was pending: a failed dispatch
  returns before the handled lines are trimmed (`Sse.ReuseIsFreshExactlyWhenDrained`,
  `Sse.FailedDispatchLeavesBytes`).
* `cJSON_Compare` answers no for some trees and their own duplicates when an object
  repeats a key (`JsonCompare.RepeatedKeyDiffersFromDuplicate`).
* In a JSON string `\u` followed by anything but four hexadecimal digits decodes to NUL
  (`JsonString.BadHexIsNul`), and an escape at the very end may swallow the closing quote
  (`JsonString.SwallowedQuote`); whitespace is every byte up to 32.
* Nothing bounds how deep prerequisites are followed. Evaluation fails to return exactly
  when the flags it examines one for another come to a flag twice; a cycle behind an unmet
  prerequisite does no harm (`EvaluateEnds.EndsExactlyWhenNoRepeat`).
* A flag without `offVariation` serves nothing while off, but is malformed once a
  prerequisite of it fails (`EvaluateSpec.OffVariationMayBeMissingOnlyWhenOff`).

## Model

| member | source | states |
|---|---|---|
| `JsonText.RoundTrip` | c-sdk-common/src/cJSON.c:1183-1659 | for every tree a double codec can print, formatted or not, parsing the printed text gives that tree back exactly when it nests at most 1000 deep, and nothing otherwise |
| `JsonText.PrintInjective` | c-sdk-common/src/cJSON.c:1247-1659 | two trees with one text are one tree, however deep they nest |
| `JsonText.PrintIsCString` | c-sdk-common/src/cJSON.c:1247-1312 | printed text contains no NUL, so its C length is its length |
| `JsonText.ValueParses` | c-sdk-common/src/cJSON.c:1182-1245 | a printed value inside any text parses to itself and stops right behind it, or fails because of its nesting |
| `JsonText.ItemsParse` | c-sdk-common/src/cJSON.c:1314-1399 | the elements of a printed array read back in order |
| `JsonText.MembersParse` | c-sdk-common/src/cJSON.c:1456-1558 | the members of a printed object read back in order, whatever the indentation |
| `JsonText.NumberParses` | c-sdk-common/src/cJSON.c:288-357 | a printed number in front of a non-number character reads back as the same double |
| `JsonText.SpelledStringParses` | c-sdk-common/src/cJSON.c:672-798 | a quoted string in any spelling parses as the bytes meant, up to the first NUL |
| `JsonText.MarkedRoundTrip` | c-sdk-common/src/cJSON.c:956-973 | printed text behind a byte order mark parses as without it |
| `JsonText.LayoutIs` | c-sdk-common/src/cJSON.c:1401-1659 | arrays on one line, a comma and if formatted a space between items; members of a formatted object on lines of their own, indented by a tab for each level, a tab behind each colon; otherwise nothing but commas |
| `JsonNumber.NumberCharsAre` | c-sdk-common/src/cJSON.c:306-331 | the characters that belong to a number |
| `JsonParse.RunLengthIs` | c-sdk-common/src/cJSON.c:302-335 | a number takes up to 63 such characters, and stops before that only at another one |
| `JsonParse.ValueStarts` | c-sdk-common/src/cJSON.c:1182-1245 | the characters a value can start with |
| `JsonString.EscapeDecodes` | c-sdk-common/src/cJSON.c:672-913 | printing then decoding any NUL-free byte string is the identity, and the scan stops at the closing quote |
| `JsonString.ScalarLiteralDecodes` | c-sdk-common/src/cJSON.c:564-669 | the `\u` escape of every Unicode scalar value, surrogate pair included, each digit in either case, decodes to its UTF-8 form |
| `JsonString.HexIs` | c-sdk-common/src/cJSON.c:535-560 | a character is a hexadecimal digit of a value exactly when it stands at that place of one of the two digit alphabets |
| `JsonString.ShortEscapesAre` | c-sdk-common/src/cJSON.c:737-758 | the eight short escapes and what each stands for, and no others |
| `JsonString.SpellingDecodes` | c-sdk-common/src/cJSON.c:672-798 | however a string is spelled, by plain bytes, short escapes and `\u` escapes in any case, both scans read the bytes meant and end at its quote |
| `JsonString.BrokenSurrogateRefused` | c-sdk-common/src/cJSON.c:584-622 | a lone or misordered surrogate, its digits in either case, is refused |
| `JsonString.BadHexIsNul` | c-sdk-common/src/cJSON.c:535-560 | four characters that are not all hexadecimal digits decode as the code point zero |
| `JsonString.SwallowedQuote` | c-sdk-common/src/cJSON.c:685-785 | a text whose last escape reads past the quote that ends it |
| `Bits.ContinuationByte` | c-sdk-common/src/cJSON.c:646-654 | `(x | 0x80) & 0xBF`, as the encoder writes it, is the low six bits behind a continuation mark |
| `Bits.LeadByte` | c-sdk-common/src/cJSON.c:655-661 | `(x | mark) & 0xFF` is mark plus bits whenever they do not overlap |
| `Bits.SurrogateBits` | c-sdk-common/src/cJSON.c:606-622 | the masks and shift that join a surrogate pair are remainders and a sum |
| `JsonString.BudgetOfUnit` | c-sdk-common/src/cJSON.c:685-722 | one unit never writes more than the first scan set aside for what it reads |
| `JsonString.BudgetMonotone` | c-sdk-common/src/cJSON.c:685-722 | the size set aside grows with what has been read |
| `JsonParse.ParseBuffer.SkipSpace` | c-sdk-common/src/cJSON.c:937-955 | moves to the next byte above 32, or steps back onto the last byte |
| `JsonParse.ParseBuffer.ReadHex4` | c-sdk-common/src/cJSON.c:535-560 | four digits give their number; any other digit gives zero |
| `JsonParse.ParseBuffer.ReadUtf16Literal` | c-sdk-common/src/cJSON.c:564-669 | one escape or surrogate pair, its length and its bytes, or refusal |
| `JsonParse.ParseBuffer.EncodeUtf8` | c-sdk-common/src/cJSON.c:626-666 | writes the UTF-8 form and nothing outside it |
| `JsonParse.ParseBuffer.ScanString` | c-sdk-common/src/cJSON.c:685-722 | finds the closing quote and counts the bytes that escapes save |
| `JsonParse.ParseBuffer.DecodeString` | c-sdk-common/src/cJSON.c:724-785 | every write, the final NUL included, stays inside the block sized by the first scan, and the block holds the decoded string |
| `JsonParse.ParseBuffer.DecodeUnit` | c-sdk-common/src/cJSON.c:727-779 | one plain byte or escape, written at its place |
| `JsonParse.ParseBuffer.ParseStringAt` | c-sdk-common/src/cJSON.c:672-798 | a string at the offset is its decoded text cut at the first NUL, or failure |
| `JsonParse.ParseBuffer.ParseNumberAt` | c-sdk-common/src/cJSON.c:288-357 | at most 63 number characters are scanned, and the offset moves by what the scan used |
| `JsonParse.ParseBuffer.ParseValueAt` | c-sdk-common/src/cJSON.c:1182-1245 | moving the offset accepts exactly the language of the recursive definition, with its value and end |
| `JsonParse.ParseBuffer.ParseArrayAt` | c-sdk-common/src/cJSON.c:1314-1399 | the same for arrays, depth restored on success |
| `JsonParse.ParseBuffer.ParseElementsAt` | c-sdk-common/src/cJSON.c:1344-1379 | the loop over elements collects them in order |
| `JsonParse.ParseBuffer.ParseObjectAt` | c-sdk-common/src/cJSON.c:1456-1558 | the same for objects |
| `JsonParse.ParseBuffer.ParseMembersAt` | c-sdk-common/src/cJSON.c:1488-1545 | the loop over members collects them in order |
| `JsonParse.Parse` | c-sdk-common/src/cJSON.c:976-1055 | a whole text, behind an optional byte order mark, with or without trailing bytes |
| `JsonPrinter.PrintBuffer.Ensure` | c-sdk-common/src/cJSON.c:387-459 | room for the request and a NUL, growing up to `INT_MAX`; what was printed survives; fails only when that is exceeded |
| `JsonPrinter.PrintBuffer.UpdateOffset` | c-sdk-common/src/cJSON.c:461-472 | the offset moves to the end of what was printed |
| `JsonPrinter.PrintBuffer.PrintNumber` | c-sdk-common/src/cJSON.c:474-532 | leaves the number's text behind the earlier text |
| `JsonPrinter.PrintBuffer.WriteEscaped` | c-sdk-common/src/cJSON.c:849-909 | the escaping loop writes exactly the quoted string and a NUL |
| `JsonPrinter.PrintBuffer.PrintString` | c-sdk-common/src/cJSON.c:801-921 | the quoted string behind the earlier text, inside the block it asked for |
| `JsonPrinter.PrintBuffer.PrintValue` | c-sdk-common/src/cJSON.c:1247-1312 | leaves the printed text of any value behind what was there, and succeeds whenever there is room |
| `JsonPrinter.PrintBuffer.PrintArray` | c-sdk-common/src/cJSON.c:1401-1454 | the same for arrays, depth restored |
| `JsonPrinter.PrintBuffer.PrintObject` | c-sdk-common/src/cJSON.c:1560-1659 | the same for objects, formatted or not |
| `JsonPrinter.PrintText` | c-sdk-common/src/cJSON.c:1058-1131 | the whole text, and no failure while it fits `INT_MAX` |
| `JsonCompare.CompareDecides` | c-sdk-common/src/cJSON.c:2730-2842 | on trees whose repeated keys agree, comparison decides equality up to member order, both ways |
| `JsonCompare.CompareIsEquivalence` | c-sdk-common/src/cJSON.c:2730-2842 | on trees with distinct keys it is reflexive, symmetric and transitive |
| `JsonCompare.Duplicate` | c-sdk-common/src/cJSON.c:2475-2547 | the recursive copy is the same tree, and compares equal to the original if and only if members that repeat a key agree, so always when keys are distinct |
| `JsonCompare.DuplicateCompares` | c-sdk-common/src/cJSON.c:2730-2842 | a tree compares equal to itself exactly when members that repeat a key agree |
| `JsonCompare.RepeatedKeyDiffersFromDuplicate` | c-sdk-common/src/cJSON.c:2803-2837 | a tree that repeats a key with different values, and compares unequal to itself |
| `JsonCompare.CompareTrees` | c-sdk-common/src/cJSON.c:2730-2842 | the loops of the comparison compute that decision |
| `JsonCompare.FindAll` | c-sdk-common/src/cJSON.c:2803-2837 | every member of one object has an equal partner under its key in the other |
| `StoreData.KindNamesAreInverse` | src/store/store_utilities.c:12-40 | kind names and kinds determine each other |
| `StoreData.TombstoneReads` | src/store/store_utilities.c:144-193 | a deletion record is valid data, deleted, with the key and version it was made for |
| `StoreData.DeletedIs` | src/store/store_utilities.c:124-142 | an item counts as deleted exactly when its mark is there and not false |
| `StoreData.ValidIs` | src/store/store_utilities.c:75-122 | data is valid exactly when its key is a text, its version a number and its mark, if any, true or false |
| `StoreData.VersionIs` | src/store/store_utilities.c:53-73 | a version is its number without the fraction, as an `unsigned int` |
| `StoreData.NoVersionIs` | src/store/store_utilities.c:53-73 | an item without a number as version counts as version 0 |
| `StoreData.MakeDeleted` | src/store/store_utilities.c:144-193 | builds that record |
| `MemoryStore.MergeFinds` | src/store/memory_store.c:346-366 | merging an item changes one key to the newer of two entries and no other key |
| `MemoryStore.MemoryStore.Init` | src/store/memory_store.c:174-225 | a put replaces both tables by its items of known kinds, filed under their keys in order |
| `MemoryStore.MemoryStore.AddAll` | src/store/memory_store.c:204-216 | files every item of one kind in order and leaves the other kind |
| `MemoryStore.MemoryStore.Get` | src/store/memory_store.c:227-259 | answers the entry exactly when its deletion mark is absent or false |
| `MemoryStore.MemoryStore.All` | src/store/memory_store.c:261-322 | lists exactly the keys for which get answers, with those answers: those whose deletion mark is absent or false |
| `MemoryStore.MemoryStore.Upsert` | src/store/memory_store.c:324-367 | invalid data is refused; otherwise the item enters unless an entry at least as new is there |
| `MemoryStore.MemoryStore.Patch` | src/store.c:124-144 | validates, then upserts under the item's own key |
| `MemoryStore.MemoryStore.Remove` | src/store.c:100-123 | a delete is an upsert of a deletion record |
| `MemoryStore.MemoryStore.ApplyAll` | src/store/memory_store.c:324-367 | a run of valid changes of one kind leaves the fold of the merges, and the other kind alone |
| `MemoryStore.WinnerIsKept` | src/store/memory_store.c:346-366 | after any changes each key holds the highest version offered for it, the earliest on a tie, deletes included |
| `MemoryStore.OrderDoesNotMatter` | src/store/memory_store.c:346-366 | the same changes in any order and any number of times end with the same answers, when versions tell items apart |
| `MemoryStore.DeleteIsFinal` | src/store/memory_store.c:346-366 | nothing as old as a delete brings the item back |
| `MemoryStore.LiveMembersFind` | src/store/memory_store.c:285-292 | the listed object answers a lookup as the store answers a get |
| `StreamEvents.PathNames` | src/streaming.c:16-44 | every kind and key has a path that parses back to it |
| `StreamEvents.ParsePath` | src/streaming.c:16-44 | a path is recognised exactly when it starts with one of the two prefixes |
| `StreamEvents.OnEvent` | src/streaming.c:114-351 | put, patch and delete events change the store as their bodies say; malformed ones change nothing and fail; unknown ones change nothing and succeed |
| `StreamEvents.Perform` | src/streaming.c:114-320 | the store call of each handler and what it reports |
| `StreamEvents.OnEvents` | src/streaming.c:322-351 | a run of events leaves both tables as the fold of what they ask for, malformed ones left out |
| `StreamMeaning.PatchMeans` | src/streaming.c:183-250 | a patch whose path is that of an item asks for its data under that kind; another path is passed over, and one without path or data is refused |
| `StreamMeaning.DeleteMeans` | src/streaming.c:251-321 | a delete asks for the item its path names at the version it gives |
| `StreamMeaning.PutMeans` | src/streaming.c:74-181 | a put brings exactly its flags and its segments, in order |
| `StreamMeaning.OthersMean` | src/streaming.c:322-351 | other names are passed over, and a body that is no object is refused |
| `StreamEvents.RunKeepsWinners` | src/streaming.c:114-351 | after any run of puts, patches and deletes of both kinds, each key holds the highest version offered since the last put, the put included, the earliest on a tie |
| `CacheSpec.SlotTextsDiffer` | src/store/caching_wrapper.c:35-130 | item, list and marker keys never collide for the two kinds |
| `CacheSpec.SlotTextsAre` | src/store/caching_wrapper.c:35-130 | the texts entries are filed under |
| `CacheSpec.OtherKindsMayCollide` | src/store/caching_wrapper.c:90-130 | for kinds of other names they may: two examples |
| `CacheSpec.CoherentLater` | src/store/caching_wrapper.c:580-601 | agreement with the backend survives the passing of time |
| `CacheSpec.HeldIsRecent` | src/store/caching_wrapper.c:580-601 | whatever is served from the cache was put in at most the TTL ago, and nothing is at TTL 0, whether or not it agrees with the backend |
| `CacheSpec.HeldWhenRecent` | src/store/caching_wrapper.c:580-601 | whatever was put in within the TTL is served, without the backend |
| `CacheSpec.HeldAgrees` | src/store/caching_wrapper.c:580-601 | what a slot not in doubt serves is the backend's copy or exactly its live items; doubt ends with the TTL |
| `CacheSpec.DoubtEnds` | src/store/caching_wrapper.c:580-601 | a slot is in doubt only up to the TTL after the call that cast it, and never at TTL 0 |
| `CacheSpec.RemovedKeeps` | src/store/memory_cache.c:8-27 | removal takes the newest entry of a key and leaves at most outdated lists of it |
| `CacheSpec.EnteredKeeps` | src/store/caching_wrapper.c:543-561 | after a change of one item in the backend, an item entered for it is right or in doubt and every other entry stands as before |
| `CacheSpec.EnteredShaped` | src/store/caching_wrapper.c:543-561 | entering any item keeps one entry per item key, and of its kind's lists only outdated ones |
| `CacheSpec.ListedKeeps` | src/store/caching_wrapper.c:771-785 | a fetched list put before outdated ones settles that list and disturbs nothing |
| `CacheSpec.UpsertAgreesExactlyWhenSafe` | src/store/caching_wrapper.c:302-337 | after an upsert of any version, cache and backend agree if and only if both took it, or neither did, or it repeats the backend's copy |
| `CacheSpec.SafeByVersions` | src/store/caching_wrapper.c:302-337 | that condition in versions: newer than the backend's copy, or finding a current entry exactly where the backend refuses it; for a new item, version 1 or nothing cached |
| `CacheSpec.UpsertKeeps` | src/store/caching_wrapper.c:302-337 | whatever is upserted, entries agree with the backend or are in a doubt confined to that item and its kind's list |
| `CacheSpec.StaleUpsertIsServed` | src/store/caching_wrapper.c:314-331 | an outdated item that finds nothing cached is refused by the backend and served by the cache |
| `CacheSpec.OlderOverDeletedIsHidden` | src/store/caching_wrapper.c:302-337 | an older item is written over a deleted one by a backend that forgets deletions while the cache keeps saying deleted |
| `CacheSpec.LostKeeps` | src/store/caching_wrapper.c:302-312 | after an upsert that took effect behind an untouched cache, entries agree or are in a doubt confined to that item and its kind's list |
| `CachingWrapper.MakeKindCollection` | src/store/persistent_store_collection.c:7-53 | the valid items of a collection, serialized in order, the others skipped |
| `CachingWrapper.MakeCollections` | src/store/persistent_store_collection.c:54-80 | each collection of the put, with texts that read back as its valid items under their own keys |
| `PutSpec.SoundPutLeavesNoDoubt` | src/store/caching_wrapper.c:434-490 | a put of valid, live members filed under their own keys leaves cache and backend in full agreement |
| `PutSpec.ReplacedLists` | src/store/caching_wrapper.c:458-462 | the cached list of such a kind is exactly what the backend then lists |
| `CachingWrapper.CachingWrapper.Init` | src/store/caching_wrapper.c:136-166 | from any cache, agreeing or not, a put replaces the backend or changes nothing; after it only what it brought itself is in doubt, and no stale marker stays; a put whose reply was lost puts everything cached in doubt |
| `CachingWrapper.CachingWrapper.MemoryInit` | src/store/caching_wrapper.c:434-490 | the flushed and refilled cache agrees with the put, but for invalid items and for lists with invalid, deleted or misfiled members |
| `CachingWrapper.CachingWrapper.CacheKind` | src/store/caching_wrapper.c:449-485 | the same for the list and items of one kind |
| `CachingWrapper.CachingWrapper.Get` | src/store/caching_wrapper.c:167-232 | from any cache: what was put in within the TTL is served without the backend, and nothing older; otherwise what the backend has, and failure only if that is down; unless the item is in doubt it is always what the backend has; a fetch settles the item |
| `CachingWrapper.CachingWrapper.GetFromBackend` | src/store/caching_wrapper.c:603-692 | fetches, caches the copy or a deletion of version 0, and answers what the backend has |
| `CachingWrapper.CachingWrapper.All` | src/store/caching_wrapper.c:234-281 | the same for the list of a kind: exactly the backend's live items unless that list is in doubt |
| `CachingWrapper.CachingWrapper.ReadRows` | src/store/caching_wrapper.c:697-769 | the fetched rows make an object of exactly the live items |
| `CachingWrapper.CachingWrapper.UpsertMemory` | src/store/caching_wrapper.c:492-571 | a current entry at least as new stays; otherwise the item replaces it and the kind's list goes |
| `CachingWrapper.CachingWrapper.Upsert` | src/store/caching_wrapper.c:283-337 | from any cache and for any version: the backend is upserted, doubt changes for that item and its kind's list alone, and full agreement is kept exactly when the upsert was safe; the backend may take the item and its reply be lost, and the cache is then left alone |
| `CachingWrapper.CachingWrapper.Initialized` | src/store/caching_wrapper.c:339-364 | from any cache: true stays true and is true of the backend; false about a ready reachable backend comes only from a current marker |
| `CachingRun.Run` | src/store/caching_wrapper.c:136-364 | over every run of init, upsert, get, all and initialized calls at any times, backend reachable or not and replies lost or not: every item or list answered and not in doubt is the bare backend's, the cache agrees with the backend up to doubt after every call and keeps one entry per item key, and an initialized store is true of the backend and never reported uninitialized again |
| `CachingRun.Serve` | src/store/caching_wrapper.c:136-337 | one call of such a run answers and changes the store as the bare backend would |
| `CachingRun.DoubtHasCause` | src/store/caching_wrapper.c:136-337 | a slot in doubt was unsettled by an earlier call of the run, an upsert that one side took alone or whose reply was lost, for that item or kind, or a put with something unsound there or a lost reply, at the time the doubt counts from, and with no put since |
| `CachingRun.SettledRunIsTrusted` | src/store/caching_wrapper.c:136-364 | a run whose upserts all meet the version condition, whose puts are sound and whose replies arrive never casts doubt, so every answer is the backend's |
| `CachingRun.NewerSettles` | src/store/caching_wrapper.c:283-337 | an upsert newer than the backend's copy and the cached one settles its item and its kind's list |
| `Backend.SerializeReads` | c-sdk-common/src/json.c:648-678 | the text stored for an item deserializes to it |
| `Backend.SerializeIs` | c-sdk-common/src/json.c:648-661 | the text stored is not formatted |
| `Backend.Backend.Init` | stores/redis/src/redis.c:305-405 | collections replace their kinds, in order, also where the reply to the commit is lost; an unreachable backend stays as it was |
| `Backend.Backend.Get` | stores/redis/src/redis.c:407-478 | a text exactly when the item is stored, and one that reads back as it |
| `Backend.Backend.All` | stores/redis/src/redis.c:480-592 | every stored text of a kind once |
| `Backend.Backend.Upsert` | stores/redis/src/redis.c:594-742 | writes over nothing, over something older, and over a deleted item unless deleted items are kept, also where the reply is lost; an unreachable backend stays as it was |
| `Redis.RunIsAtomic` | stores/redis/src/redis.c:594-742 | in every interleaving of any number of upserts and puts, the server holds what the operations that took effect make of it one after another, each upsert writing only over nothing, a deleted or a strictly older item |
| `Redis.RunIsAccounted` | stores/redis/src/redis.c:305-405 | in every interleaving each operation takes effect at most once, between its beginning and its end, and exactly once if its caller was told of success, lost replies included |
| `Redis.StepKeeps` | stores/redis/src/redis.c:627-742 | every command of every connection keeps that; a connection can no longer commit exactly when a hash it watches was touched since |
| `Redis.CommitIsAtomic` | stores/redis/src/redis.c:331-397 | the commands of a transaction do what the operation does at once |
| `Redis.PutCommandsPut` | stores/redis/src/redis.c:339-383 | the queued commands of a put replace exactly its kinds |
| `Redis.LiveOnlyByNewer` | stores/redis/src/redis.c:653-669 | no step replaces an item whose deletion mark is absent or false by an equal or older version, except the commit of a put |
| `Redis.CommitsExactlyWhenUnspoiled` | stores/redis/src/redis.c:722-741 | a transaction ready to commit takes effect if and only if no hash it watches was touched since that hash was watched |
| `Redis.PutFailsExactlyWhenSpoiled` | stores/redis/src/redis.c:389-397 | a put ready to commit is thrown away if and only if its connection was left watching a hash that was touched since; never on a connection that watches nothing |
| `Redis.CleanPutCommits` | stores/redis/src/redis.c:331-397 | a put begun on a connection that watches nothing stays so through every step of every connection until it commits or its connection is lost |
| `Redis.RefusedUpsertSpoilsNextPut` | stores/redis/src/redis.c:665-669 | a run in which a refused upsert leaves its connection so that the next put will fail |
| `Redis.DeletedIsForgotten` | stores/redis/src/redis.c:651-658 | an older live item is written over a deleted one |
| `RedisPool.Pool.Borrow` | stores/redis/src/redis.c:154-213 | takes the last returned connection, or claims room before opening, or waits; the count stays right |
| `RedisPool.Pool.Opened` | stores/redis/src/redis.c:181-230 | a failed opening gives its room back |
| `RedisPool.Pool.Return` | stores/redis/src/redis.c:233-261 | a good connection becomes idle, a failed one gives its room back |
| `RedisPool.Pool.Run` | stores/redis/src/redis.c:154-261 | in every interleaving the count is idle plus lent plus opening, never above the pool size, and no connection has two holders |
| `RedisPool.BusyUpdate` | stores/redis/src/redis.c:154-261 | a thread's move changes the number of busy threads by that thread alone |
| `RefCount.Heap.New` | src/store/ldjsonrc.c:21-41 | a new item has one holder and disturbs no count |
| `RefCount.Heap.Retain` | src/store/ldjsonrc.c:67-78 | one more holder of an item, through every list below it; counts still agree |
| `RefCount.Heap.Release` | src/store/ldjsonrc.c:93-111 | one holder less, through every list below it; no count falls below zero, and exactly the items whose count reaches zero are destroyed |
| `RefCount.Heap.ReleaseAssociated` | src/store/ldjsonrc.c:139-155 | releases each entry of a list once |
| `RefCount.Heap.RetainAssociated` | src/store/ldjsonrc.c:121-136 | retains each entry of a list once |
| `RefCount.Heap.Associate` | src/store/ldjsonrc.c:43-65 | any list of items still reached once the old list is let go keeps counts and holders in agreement while the parent is counted once, and otherwise drifts by a known amount |
| `RefCount.Heap.AliveExactlyWhenHeld` | src/store/ldjsonrc.c:80-111 | an item is there exactly when some direct holder reaches it through lists |
| `RefCount.Heap.AllReleased` | src/store/ldjsonrc.c:93-111 | once nobody holds anything, everything is destroyed |
| `RefCount.Run` | src/store/ldjsonrc.c:21-155 | over every run of creating, retaining, releasing and associating, calls not allowed left out, counts agree with what the callers took and let go, and an item is there exactly while a holder reaches it |
| `RefCount.CountedTwiceBreaks` | src/store/ldjsonrc.c:43-65 | a heap in which associating an item counted twice leaves counts that no holders explain |
| `RefCountSpec.CountedExactlyWhenHeld` | src/store/ldjsonrc.c:67-111 | counts that balance are positive exactly for what holders reach |
| `RefCountSpec.AssociationAgrees` | src/store/ldjsonrc.c:43-65 | after association, counts agree with the true holders if and only if the parent was counted once or both lists have the same entries |
| `RefCountSpec.HoldersUnique` | src/store/ldjsonrc.c:67-111 | counts and lists determine the holders |
| `Rollout.HexToDecimalLoop` | src/evaluate.c:1142-1167 | the loop computes the hexadecimal number, or fails on another character |
| `Rollout.BucketRange` | src/evaluate.c:1244-1261 | the bucket of fifteen hexadecimal digits lies in [0, 1] |
| `Rollout.PositionAtMost` | src/evaluate.c:1381-1442 | a user is served position at most i, not the last, exactly when the bucket is below some cumulative weight up to i |
| `Rollout.AtMostByCumulative` | src/evaluate.c:1381-1442 | with non-negative weights, exactly when it is below the i-th cumulative weight |
| `Rollout.PositionsPartition` | src/evaluate.c:1381-1442 | the positions partition the buckets and the last takes the remainder |
| `Rollout.GrowingWeightsKeepPosition` | src/evaluate.c:1381-1442 | growing cumulative weights never move a user to a later position |
| `Rollout.PickVariation` | src/evaluate.c:1381-1442 | the loop serves the entry at that position, or fails on the first malformed entry before it |
| `FlagMeaning.AttributeIs` | c-sdk-common/src/user.c:491-546 | which value, if any, a user has under each attribute name, built in or custom |
| `FlagMeaning.HashInputIs` | src/evaluate.c:1169-1243 | what is hashed for a user: seed, or key and salt, then the attribute's text and the secondary key, with dots between, if it fits 255 bytes |
| `FlagMeaning.BucketIs` | src/evaluate.c:1169-1275 | the bucket is the number of fifteen hexadecimal digits of that hash over their maximum, and zero where there is nothing to hash or the digits are none |
| `FlagMeaning.ChooseIs` | src/evaluate.c:1278-1484 | a rule or fallthrough serves its own variation, or that of the entry of the whole rollout up to which the weights first exceed the bucket, the last if none does; in an experiment exactly when the rollout is one and that entry is tracked; it serves nothing exactly when something looked at has not its type |
| `FlagMeaning.ClauseIs` | src/evaluate.c:1022-1139 | a clause matches exactly when its attribute, not null, meets one of its values before any nested one, or, negated, none of them and nothing is nested; it errs exactly when something looked at has not its type |
| `FlagMeaning.SegmentIs` | src/evaluate.c:861-1002 | a user is in a segment exactly when included, or not excluded and some rule of it holds: all its clauses, and the bucket below its weight; errors exactly as said |
| `FlagMeaning.RuleIs` | src/evaluate.c:736-858 | a rule matches exactly when all its clauses hold, a segment clause when some stored segment it names holds the user, turned round by negation; errors exactly as said |
| `FlagMeaning.SegmentKeyFails` | src/evaluate.c:822-858 | a segment the store fails on, once looked at, makes a store failure |
| `EvaluateSpec.EvaluationFollows` | src/evaluate.c:239-510 | every evaluation that returns errs exactly when something it looks at has not its type or does not name what is there; otherwise it is: off, else first unmet prerequisite, else first target, else first rule that holds, else fallthrough, with the variation, rule and experiment mark that case gives, all told by the fields of flags, segments and user |
| `EvaluateSpec.PrerequisitesDecide` | src/evaluate.c:541-733 | prerequisites pass exactly when all are met, otherwise fail at the first unmet one, and err exactly when one looked at does not read |
| `EvaluateSpec.PrerequisiteErrs` | src/evaluate.c:560-660 | what kind of error that is: the store's, that of the prerequisite's own evaluation, an event that cannot be made, or a wrong shape |
| `EvaluateSpec.EventsArePostOrder` | src/evaluate.c:541-733 | for every evaluation without error the events are a post-order walk of the flags examined, defined without the evaluator's events: each prerequisite after its own, naming its parent, nothing after the first unmet one |
| `EvaluateSpec.ServedIsVariation` | src/evaluate.c:123-217 | any index served is in range and the value is that variation |
| `EvaluateSpec.OffVariationMayBeMissingOnlyWhenOff` | src/evaluate.c:278-340 | a missing off variation is no error while the flag is off and is one when a prerequisite is unmet |
| `EvaluateSpec.TargetsDecide` | src/evaluate.c:346-395 | the target loop finds the first target listing the user, and errs exactly when one looked at does not read |
| `EvaluateSpec.RulesDecide` | src/evaluate.c:397-478 | the rule loop finds the first rule that holds, and errs exactly when one looked at does not read |
| `EvaluateEnds.EndsExactlyWhenNoRepeat` | src/evaluate.c:512-734 | evaluation returns for a flag and user if and only if no chain of flags, each examined for the one before it, comes to a flag twice; an entry is examined exactly when those before it are met |
| `EvaluateEnds.EndsWithoutCycle` | src/evaluate.c:512-734 | where the prerequisites of flags that are on lead in no circle, evaluation returns for every user |
| `EvaluateEnds.NeedsItself` | src/evaluate.c:541-610 | a flag that is on and names itself first is never evaluated to an end |
| `Evaluate.Deeper` | src/evaluate.c:239-340 | room for more evaluations inside one another changes no answer |
| `Evaluate.EvaluateUnfolds` | src/evaluate.c:239-340 | where evaluation returns, its answer obeys the recursion of the source: decided early, or concluded from a check of the prerequisites that returns too and goes less deep |
| `Evaluate.CheckUnfolds` | src/evaluate.c:541-733 | a check that returns stops at the first entry that does not pass, or goes on with the events so far, each stored prerequisite evaluated to an end |
| `EvaluateTotal.EvaluationTotal` | src/evaluate.c:239-510 | on a well-formed store no evaluation of a well-formed flag that returns ends in an error |
| `EvaluateRun.Run` | src/evaluate.c:239-510 | filling details, value and events in place gives the specified outcome |
| `EvaluateRun.Check` | src/evaluate.c:512-734 | the prerequisite loop appends the specified events and stops where specified |
| `EvaluateRun.Target` | src/evaluate.c:346-510 | the target and rule loops and the fallthrough |
| `Sse.ChunkIndependence` | c-sdk-common/src/sse.c:126-177 | for every byte stream and every way to cut it, dispatched events and leftovers are those of the line handler over the lines of the whole stream |
| `Sse.ChunksDoNotMatter` | c-sdk-common/src/sse.c:126-177 | the same from any state of the parser |
| `SseWire.WrittenIsHandedOn` | c-sdk-common/src/sse.c:39-177 | for every list of events, written with a space behind the field names or without, one line for each line of a body, comments anywhere and cut in any way, the parser hands on exactly those events in order, up to and with the first that is refused |
| `Sse.SseParser.ProcessChunk` | c-sdk-common/src/sse.c:126-177 | appending a chunk and handling its complete lines in place has that effect and keeps the partial line; after a failed dispatch the whole chunk stays counted |
| `Sse.SseParser.ProcessLine` | c-sdk-common/src/sse.c:39-124 | event and data fields gather, other lines are ignored, an empty line dispatches |
| `Sse.Session` | c-sdk-common/src/sse.c:25-37 | a parser fed a stream and destroyed counts no bytes exactly when every dispatch succeeded and the stream ended with a line feed |
| `Sse.ReuseIsFreshExactlyWhenDrained` | c-sdk-common/src/sse.c:25-37 | after any run, a destroyed parser hands on the same events as a new one, whatever its unset bytes hold, exactly in that case |
| `Sse.FailedDispatchLeavesBytes` | c-sdk-common/src/sse.c:158-170 | a failed dispatch leaves a whole chunk counted though it ended with a line feed |
| `LruSpec.ExistedExactlyWhenRecent` | src/lru.c:51-105 | insertion reports an existing key exactly when fewer than `capacity` other keys were inserted since it last was, capacity 0 included |
| `LruSpec.HeldIsRecent` | src/lru.c:51-105 | the keys held are the `capacity` most recent distinct ones |
| `Lru.Lru.InsertKey` | src/lru.c:51-105 | list and hash hold the same nodes, and change as that history says |
| `Lru.Lru.MoveToFront` | src/lru.c:99-104 | relinks a node to the front and leaves the others in order |
| `Lru.Lru.DropOldest` | src/lru.c:73-79 | takes out the node before the head, from list and hash |
| `Lru.Lru.Clear` | src/lru.c:107-135 | empties list and hash |
| `EventSpec.LinesDiffer` | src/event_processor.c:1018-1081 | two evaluations share a summary line exactly when variation and version agree |
| `EventSpec.SummaryCounts` | src/event_processor.c:202-429 | every line counts its evaluations, and the summary is empty exactly when nothing was evaluated |
| `EventSpec.SummaryDescribesFirst` | src/event_processor.c:300-421 | a line carries what the first evaluation it counts was kept as |
| `EventSpec.SummaryNotesFirst` | src/event_processor.c:244-298 | a flag is in the summary exactly when it was evaluated, with the fallback of its first evaluation |
| `EventSpec.FieldIs` | src/event_processor.c:248-330 | a field counts as given when it is there and not null |
| `FeatureEvents.SeenIs` | src/event_processor.c:202-421 | what the summary keeps of an event is the evaluation's key, non-null value and fallback, variation and version |
| `FeatureEvents.EventMadeExactlyWhen` | src/event_processor.c:644-918 | an evaluation has an event exactly when its reason has a name and the fields copied from its flag have their types |
| `FeatureEvents.TrackingIs` | src/event_processor.c:790-870 | the fallthrough or the rule that matched asks for tracking by its own field, and the flag by its |
| `FeatureEvents.ReasonSays` | src/variations.c:90-209 | a reason names its kind and what belongs to it: error, prerequisite, rule number and rule id |
| `FeatureEvents.SentExactlyWhenAsked` | src/event_processor.c:467-549 | an evaluation is queued in full exactly when its flag, the rule that matched or the fallthrough is tracked or it was part of an experiment, and as a debug event exactly while both clocks are before the flag's debug date; each reports key, variation, value, default, version, prerequisite and user, the reason exactly when asked for, and nothing else |
| `FeatureEvents.EventReads` | src/event_processor.c:644-918 | every field of a feature event reads as it was set, and there are no others |
| `FeatureEvents.TrimmedReads` | src/event_processor.c:488-514 | marks that are set are taken off, the reason is kept exactly when it is asked for, and every other field stays, whatever the event |
| `FeatureEvents.DebugReads` | src/event_processor.c:431-465 | a debug event says so, carries the whole user and otherwise says the same |
| `FeatureEvents.ReasonReads` | src/variations.c:90-209 | the reason marks an experiment exactly when the evaluation was part of one |
| `FeatureEvents.PrerequisitesHaveEvents` | src/evaluate.c:620-650 | every prerequisite recorded by an evaluation without error has a feature event |
| `SummaryJson.AddSeenKeeps` | src/event_processor.c:244-421 | opening flags and lines and raising counts in the JSON object keeps it in step with the summary |
| `SummaryJson.SummaryTells` | src/event_processor.c:1331-1435 | for every flag, variation and version, the counts in the summary event add up to the evaluations seen |
| `SummaryJson.LineTells` | src/event_processor.c:1331-1435 | every entry of a flag's list says, field by field, what the first evaluation it counts was kept as, and counts all of them |
| `SummaryJson.DefaultTells` | src/event_processor.c:1331-1435 | a flag is sent exactly when it was evaluated, and its default is the fallback of its first evaluation |
| `SummaryMeaning.SummaryMeans` | src/event_processor.c:202-429 | whoever reads a summary learns for every flag evaluated the fallback of its first evaluation and, for every variation and version, the value first served with it, whether the flag was unknown then, and how often it was served |
| `SummaryMeaning.BatchMeans` | src/event_processor.c:1623-1695 | a batch ends with a summary that says so of all evaluations since the last one |
| `SummaryMeaning.AddedToSummary` | src/event_processor.c:74-199 | a result adds its own evaluation, unknown exactly when it had no flag, and then those of its prerequisites |
| `SummaryMeaning.ToldIs` | src/event_processor.c:97-105 | the value told is the one served, or the fallback where that is missing or null |
| `EventProcessor.Processor.AddEvent` | src/event_processor.c:551-566 | an event is queued while there is room and dropped otherwise |
| `EventProcessor.Processor.MaybeMakeIndexEvent` | src/event_processor.c:568-642 | a user is announced exactly when not inlined and not among the recent keys since the last flush of keys |
| `EventProcessor.IndexSays` | src/event_processor.c:608-640 | an index event says when, what and who, and nothing else |
| `EventProcessor.Processor.Count` | src/event_processor.c:244-421 | raises one counter of the JSON object in place, opening flag and line where they are new |
| `EventProcessor.Processor.ProcessEvaluation` | src/event_processor.c:74-199 | an evaluation whose event cannot be made changes nothing; otherwise it and each prerequisite evaluation are summarised once as what they served, and index, debug, full and prerequisite events are queued in that order as far as there is room, each exactly when asked for |
| `EventProcessor.Processor.PossiblyQueue` | src/event_processor.c:467-549 | taking the marks off one by one queues the debug and the full event as specified |
| `EventProcessor.Processor.PrepareSummary` | src/event_processor.c:1331-1435 | the loops turn the lines of every flag into a list, in order |
| `EventProcessor.Processor.CreatePayload` | src/event_processor.c:1623-1695 | everything gathered moves into one JSON array, the queued events and then one summary event that tells what was seen, or nothing when there was nothing |
| `EventProcessor.CarriedCount` | src/event_processor.c:1623-1695 | whoever adds up the summaries in a batch gets exactly the evaluations drained into it |
| `EventSender.Sender.Poll` | src/events.c:209-345 | drains only when no batch is pending; a retry repeats the same body and identifier; a new batch is lost exactly when its request cannot be prepared; nothing summarised or queued is dropped from the history |
| `EventSender.Sender.Drain` | src/events.c:245-296 | the drained batch counts exactly what was gathered |
| `EventSender.Sender.Done` | src/events.c:53-100 | success delivers, a second failure discards, a first one keeps the batch unless the stored time reads zero |
| `EventSender.Sender.Conserved` | src/events.c:53-345 | every evaluation ever summarised is counted once in JSON: gathered, pending, delivered, discarded or lost |
| `EventSender.Run` | src/events.c:53-345 | over every run of evaluations, polls and ends of requests, each evaluation enters the history once and in order and never leaves it |
| `EventSender.BatchesCount` | src/event_processor.c:1331-1695 | over all batches, the counts in their JSON are exactly the evaluations drained |
| `EventSender.ReceivedCounts` | src/events.c:270-283 | the text of a batch parses back to it, so a receiver counts exactly the evaluations drained into it |
| `EventSender.SentAtMostTwice` | src/events.c:209-345 | over all requests ever made, each carries the body and identifier of its batch, and none is the third of a batch |
| `EventSender.RetriedExactlyWhenClockReads` | src/events.c:84-97 | with a clock that fits, a first failure is retried exactly from the first millisecond on |
| `Streaming.Stream.Poll` | src/streaming.c:450-597 | a connection opens exactly when enabled, prepared, not failed for good, none is open, and nothing failed before or the scheduled wait is over; a silent stream is closed after five minutes |
| `Streaming.Stream.Done` | src/streaming.c:387-432 | the codes 401 to 499 but for 408 and 429 fail for good, and no other; only a stream that ran a minute clears the attempts |
| `Streaming.Run` | src/streaming.c:387-597 | over every run of polls, bytes read and ended connections: every connection opened after a failure waited as scheduled, at most one is open and none opens after a permanent failure |
| `Streaming.Stream.Schedule` | src/streaming.c:508-544 | one second before attempt 1, later half the ceiling and the random share of the other half |
| `Streaming.CeilingGrows` | src/streaming.c:526-533 | the ceiling doubles with every attempt up to the fifth and is 30 seconds from the sixth on |
| `Streaming.WaitsAre` | src/streaming.c:508-544 | the waits of every attempt in milliseconds |
| `Streaming.Normalize` | c-sdk-common/src/utility.c:213-222 | a random number is spread over the range in proportion and never leaves it |

The run-wide claims on reconnects are in `Streaming.Stream.Valid`. Every operation of these classes keeps it, as every operation keeps
`EventSender.Sender.Valid`, `RedisPool.Pool.Valid` and, of the caching wrapper, `Shape`;
its `Valid` adds that what is current agrees with the backend or is in doubt. Of the
reference counts, `New`, `Retain` and `Release` keep `Sound`, and `Associate` keeps it
while the parent is counted once.

## Left out

- libcurl, the network thread, polling for flags, HTTP headers and the file data source: foreign I/O, or plain folds over maps.
- SHA-1, regular expressions, semantic versions, timestamps and the operators of src/operator.c: an operator is any predicate, a digest any function.
- Rounding of doubles and the digits of `printf`: numbers are reals with an assumed faithful codec; NaN and infinities, which print as null, are not in the model.
- Stack overflow: an evaluation that does not return is one that no depth of calls suffices for; how deep the C stack reaches is not modelled.
- Memory allocation that fails, shutdown order, and the error position that `cJSON_GetErrorPtr` reports.
- Sibling pointers of cJSON nodes: children are sequences, so linking in place and reference nodes are not captured; nor are raw items, or the shortcut of comparison for one and the same node.
- Failed assertions of the C code: where the source asserts a field's type, the member requires it.
- Numbers outside `unsigned int` as versions and times: C leaves the conversion open; the model takes them modulo the range.
- uthash: a table is a list of entries; lookup among entries with one key finds the newest, and a put must not repeat keys.
- Backend.Backend.Get: a stored text that does not parse or is not valid data is not modelled; all texts are valid and filed under their own key.
- CachingWrapper.CachingWrapper.Init: puts with kinds of other names are excluded, since their cache keys may collide with those of the two kinds (`CacheSpec.OtherKindsMayCollide`); so are puts that repeat a key, and valid items whose text would not read back.
- Overlapping calls of the caching wrapper: each call is one step, though the C code lets go of the cache's lock while it asks the backend.
- CachingWrapper.CachingWrapper.Upsert: serialization that fails for size, and items nested deeper than the parser reads back, are left out.
- Redis.RunIsAtomic: a server error inside a transaction closes the connection; connections returned in the middle of one are not modelled.
- RedisPool.Pool.Run: waiting is a state, and the ten-second timeout of the wait is a further attempt; fairness is not claimed.
- RefCount.Heap.Associate: the old list is taken away before its entries are released rather than after; releasing them never reads it. Items are positions in a heap, counts do not wrap, and the gap between the read lock and the extra references in the memory store's list of all items is not modelled.
- Lru.Lru.InsertKey: the node of a dropped key is a new node here, where the C code reuses the block.
- EventProcessor.Processor.ProcessEvaluation: the JSON of a user, with private attributes removed, is a parameter; the events of prerequisites are given, each made when it was evaluated.
- Custom, identify and alias events: they enter the queue as any event that is no summary.
- EventSender.ReceivedCounts: asks that the batch be printable and nested at most 1000 deep, which flag values of an application may exceed.
- EventSender.Sender.Poll: the headers kept from a request that could not be prepared are not modelled.
- Streaming.Stream.Done: the sixty-second rule reads a start time that is only set after a wait, so nothing is claimed of a first connection.
- StreamEvents.OnEvent: requires puts without repeated keys, as the memory store does, and speaks of the memory store only.
