# Chat sync: moving conversations without losing or inventing anything

This project models how the sync engine moves a conversation between devices: its header, its
`composerData` row, its keyed messages ("bubbles") and the graph of content-addressed blobs behind it.

- `Wire`, `LastWins`, `CursorSchemas`, `Schema`, `Seeds`, `Reach`, `Walker`, `Superseded`: the protobuf reader, the
  schema-driven parse of one message, and the walk of the blob graph under node, byte and depth limits. `References`
  says what a message refers to of the schema table and the scanned fields alone.
- `Portable`, `Transfer`, `Closure`: the payload of a portable chat, its validator, and the verdict on whether it
  holds everything its conversation states reach.
- `Descriptors`, `Conforming`, `Compat`: the check that an installed schema decodes stored bytes as the publisher's
  schema does, and the data it accepts.
- `Bubbles`, `KvMerge`, `ChatMerge`, `MergeBudget`: the three-way merge of messages and blobs, the election of a
  core, and the size estimate made before a merge.
- `Origins`, `Ancestry`: the search through version history for a version's original ordering, and the election of the
  latest tip.
- `Enrich`, `Publish`: filling a published chat with locally found blobs, and dropping references that lead nowhere.
- `JsonString`, `Base64`, `Canonical`, `Lengths`: the hand-written canonical JSON writers and length formulas.
- `Chunks`, `ChunkedChat`, `Staging`: cutting a chat into bounded parts and putting it together again.
- `RepairScan`, `RepairBudget`, `Repair`, `RepairPlan`, `RepairReads`, `RepairBuild`, `Reparse`: bringing back damaged
  messages from stored versions under one shared parse budget.
- `FileTree`: the resumable walk of a directory tree.
- `Basics`, `Sums`: vocabulary and finite sums.

Objects the program updates in place are classes whose methods are proved against specification functions; code made of
expressions is functions. Text is a sequence of UTF-16 code units, bytes are numbers below 256. SHA-256, UTF-8 decoding
of stored bytes and `JSON.parse` are parameters: no result depends on how they work.

## Findings

Properties one might expect of the program that do not hold, each with an input that shows it and the exact condition
under which the property does hold.

- A walk can return a blob nothing refers to. A parse that gives up at the limit on map keys has already taken in values
  that a later entry of the same key replaces (`Superseded.FollowsSuperseded`). Every returned id is reachable when no
  message read has more map keys than the node limit and none that is malformed refers to anything; that can be read off
  the stored messages (`Walker.WalkAgentKvReachability`, clause `Faithful`).
- The cross-version observer accepts a field whose enum labels differ, if a message of the enum's name hides it
  (`Compat.HiddenEnum`), and a map whose values decode differently, if its descriptor also names a type in `T`
  (`Compat.HiddenMapValue`). Types found identical decode alike exactly when each name plays the same role in both
  snapshots (`Compat.IdenticalTypesDecodeAlike`), and a map exactly when its values do (`Compat.MapDecodesAlike`).
- The streaming and the row-reading core hash differ on a text value that is not valid UTF-8, and only then
  (`Canonical.OneStream`).
- A chunked capture takes messages that staging refuses: those with an empty id or an overlong key, and only those
  (`Staging.CaptureStages`, `Staging.BadKeyRefused`).
- Merging a message table with itself over a base does not give it back when the base has keys it lacks, and only then
  (`Bubbles.MergeIdempotent`).
- Resolving a conflict in stages can elect another version than resolving it at once: a resolution that repeats an older
  candidate records that candidate's origin. It elects the same exactly when the recorded origin is the first of all
  (`Origins.StagedResolution`).
- A repair can be put together and then refused by the parser, as the rows of several versions add up: exactly when the
  printed snapshot has more than 262,144 structural tokens, and so whenever it has more than 43,684 messages. The limit
  of 250,000 rows never strikes first (`RepairBuild.RepairParses`, `Reparse.TooManyRows`, `Reparse.RowsWithinTokens`).

## Model

| member | source | states |
|---|---|---|
| Wire.ReadVarint | src/chat/agentKv.ts:1384-1400 | the varint reader returns the one prefix at the offset that is a base-128 varint, if there is one |
| Wire.FirstVarintExact | src/chat/agentKv.ts:1384-1400 | at most one prefix is a varint, and the reader's answer is that one |
| Wire.VarintFits64 | src/chat/agentKv.ts:1384-1400 | every varint the reader accepts has a value below 2^64 |
| Wire.ReadEncodedVarint | src/chat/agentKv.ts:1384-1400 | reading what the base-128 encoder writes gives the value and its length back, whatever follows |
| Wire.ScanProtobufMessage | src/chat/agentKv.ts:1293-1382 | the scan loop reports the fields the recursive scanner finds, up to where the visitor stops it |
| Wire.ScanAcceptsExactly | src/chat/agentKv.ts:1293-1382 | the scan succeeds with a field list exactly when the bytes concatenate well-formed encodings of those fields |
| Wire.ScanConcatenation | src/chat/agentKv.ts:1293-1382 | scanning a complete message followed by more bytes gives the two field lists joined |
| Wire.ScanEncoded | src/chat/agentKv.ts:1293-1382 | scanning what the encoder writes reports exactly the written fields |
| Wire.PayloadsShorter | src/chat/agentKv.ts:1293-1382 | every payload is shorter than the message that carries it, so nested parsing ends |
| LastWins.SurvivorIsLast | src/chat/agentKv.ts:1072-1123 | folding fields into keyed slots keeps for each slot the last position that fills it |
| CursorSchemas.TableFields | src/chat/agentKv.ts:731-978 | which field numbers the pinned table knows and which of them are repeated, schema by schema |
| CursorSchemas.TableWires | src/chat/agentKv.ts:731-978 | which fields are numbers and which of these may be packed; all others are delimited |
| CursorSchemas.TableOneofs | src/chat/agentKv.ts:731-978 | which fields share which oneof |
| CursorSchemas.TableActions | src/chat/agentKv.ts:731-978 | which fields hold ids of which values, nest which schema or are maps, listed by target, and that no other field acts |
| CursorSchemas.ActionsTakePayloads | src/chat/agentKv.ts:731-1049 | in the pinned schema table acting rules take payloads only, no oneof member is a map and maps are repeated |
| Schema.SemanticParseContext.WalkSchemaMessage | src/chat/agentKv.ts:1051-1143 | the two-pass walk adds exactly the meaning of the message when ids and map keys fit, else it reports the limit |
| Schema.SemanticParseContext.ScanFields | src/chat/agentKv.ts:1072-1123 | the second scan takes in the immediate references and leaves the live deferred value of every slot |
| Schema.SemanticParseContext.ProcessDeferred | src/chat/agentKv.ts:1124-1142 | the three final loops take in exactly the retained singular, oneof and map values |
| Schema.ParseProtobuf | src/chat/agentKv.ts:617-657 | a parse is whole exactly when the bytes are valid and new ids and map keys fit, and then reports exactly their meaning, which References.ParseSays spells out; a cut-off one adds only ids the message refers to while map keys fit |
| Schema.MeaningByPosition | src/chat/agentKv.ts:1051-1280 | the references the walk computes are those of immediate positions and of live deferred ones; what these positions give is said without roles and slots by References.SaysMeans |
| Schema.HexIsNumber | src/chat/agentKv.ts:1263-1263 | an id writes its bytes as one number in base 16, two digits a byte |
| References.SaysMeans | src/chat/agentKv.ts:1051-1280 | said of the schema table and the scanned fields alone, the walk finds exactly the references and faults of every repeated field and of every other field that no later one replaces: a later member of its oneof, acting or not, a later occurrence of a singular field, a later map entry of the same key |
| References.ReplacedIsGone | src/chat/agentKv.ts:1083-1107 | a message refers to exactly what it refers to without a replaced field |
| References.OverwrittenImage | src/chat/agentKv.ts:1083-1085 | by the pinned table a blob id followed by inline data refers to nothing, and data followed by a blob id to the blob |
| References.ParseSays | src/chat/agentKv.ts:617-657 | a whole parse reports exactly the references and flags the bytes say, and malformed bytes have none |
| References.ChildrenSay | src/chat/agentKv.ts:262-478 | one reference leads to another exactly if the store has its content under its own key and hash and the content names the other |
| References.StateSays | src/chat/agentKv.ts:507-615 | a state that is a tilde and the Base64 of bytes roots exactly what the bytes name |
| References.ReadableStates | src/chat/agentKv.ts:507-615 | and every other state is unreadable and roots nothing |
| Superseded.FollowsSuperseded | src/chat/agentKv.ts:1100-1123 | with room for one id and one map key, entries a→x, b→empty, a→y make the parse report x, while the message refers to y only |
| Seeds.ExtractRoots | src/chat/agentKv.ts:507-615 | extraction is complete exactly when every state is readable and all fit the limits, and its roots are then exactly the states' references; roots of steady states are always among them; bytes are short only if a state is larger than what is left, nodes only if the states refer to too many ids or one is overloaded |
| Reach.IssueMeans | src/chat/agentKv.ts:293-411 | which answer of the store makes which issue, and that only verified text or blob bytes under the id's own key are content |
| Reach.ClosureIsLeast | src/chat/agentKv.ts:221-505 | the closure is contained in every set that holds the roots and is closed under references |
| Reach.StreamingFitsRetaining | src/chat/agentKv.ts:268-277 | what fits the limits of a streaming walk fits those of a retaining one |
| Walker.Schedule | src/chat/agentKv.ts:237-247 | a typed reference joins the queue the first time only, and the queue's account is kept |
| Walker.Fetch | src/chat/agentKv.ts:268-430 | one lookup, verification and debit: the walk's account of content, issues and bytes is kept, or the walk stops because the row exceeds the bytes left or the ids looked up the nodes |
| Walker.Step | src/chat/agentKv.ts:262-478 | one turn of the worklist loop keeps every invariant, or stops with a limit reason |
| Walker.QueueBound | src/chat/agentKv.ts:234-256 | at most six entries a node are ever queued, so the loop ends |
| Walker.WalkAgentKvReachability | src/chat/agentKv.ts:221-505 | complete exactly when a closure of available content fits every limit; without a limit the result is exactly the closure, verified ids and issues split exactly; counters stay within limits; returned ids are reachable unless map keys overflow; bytes are given as a reason only if a state or row exceeds what is left, nodes only if more ids are reached than allowed or a message has more map keys or is malformed |
| Walker.StreamingRefinesRetaining | src/chat/agentKv.ts:268-428 | if a streaming walk can complete, the retaining walk under the same limits can |
| Walker.ExactWalksAgree | src/chat/agentKv.ts:421-477 | two walks that met no limit agree on roots, ids and what is wrong, whatever their modes and limits |
| Portable.SortedUniqueIds | src/chat/stateVscdb.ts:2542-2555 | accepts exactly strictly sorted lists of 64-digit hexadecimal ids |
| Portable.IdIsHex | src/chat/stateVscdb.ts:2542-2555 | ids are the hexadecimal writing of 32 bytes |
| Portable.ValidBlobMeans | src/chat/stateVscdb.ts:2472-2540 | a valid blob row is what storing some bytes under their hash leaves |
| Portable.ValidatePayload | src/chat/stateVscdb.ts:2472-2540 | no error exactly on payloads whose rows are content-addressed, sorted and bounded and whose references split into materialized and missing ids |
| Closure.LookupServes | src/chat/continuationClosure.ts:194-220 | over a valid payload the lookup answers as a fixed store does, refusing only what exceeds the remaining bytes |
| Closure.ContentOfId | src/chat/continuationClosure.ts:194-220 | in a valid payload an id is verified content or simply absent, never tampered or unreadable |
| Closure.VerifyClosure | src/chat/continuationClosure.ts:68-146 | complete exactly when the walk of the payload can be; without a limit the verdict is decided by the reachable ids alone; two of the invalid reasons never occur |
| Closure.ExtraRowsIrrelevant | src/chat/continuationClosure.ts:68-146 | declared rows the core does not reach change neither the closure nor the verdict on it |
| Closure.ExtraRowsKeepVerdict | src/chat/continuationClosure.ts:68-146 | nor do they change whether the walk meets a limit |
| Descriptors.SameOpaqueType | src/chat/dataCompatibility.ts:55-66 | a true answer means the whole descriptor graph is identical, cycles included; an identical graph of fewer than 256 names always gets one |
| Conforming.ScalarValuesFit | src/chat/dataCompatibility.ts:84-86 | every scalar value as an encoder writes it, eight bytes for codes 1, 6 and 16, four for 2, 7 and 15, delimited for 9 and 12, else a varint, fits its descriptor |
| Conforming.PackedEncoded | src/chat/dataCompatibility.ts:104-111 | packed varints are read back |
| Conforming.EncodedMessageFits | src/chat/dataCompatibility.ts:127-140 | a message written field by field by descriptors common to both snapshots fits, nested to any depth |
| Conforming.NestedDoubleFits | src/chat/dataCompatibility.ts:81-87 | a double in a nested message fits, whatever else the message type has gained |
| Conforming.MessageDecodes | src/chat/dataCompatibility.ts:127-140 | decoding gives a node for every field in order, with the descriptor of its number if there is one |
| Conforming.AsInt32Means | src/chat/dataCompatibility.ts:73-74 | an enum value is read as a 32-bit two's-complement number |
| Compat.SameDecoding | src/chat/dataCompatibility.ts:55-66 | a closed set of identical types that keep their roles decodes any bytes to the same tree in both snapshots |
| Compat.IdenticalTypesDecodeAlike | src/chat/dataCompatibility.ts:55-66 | identical types decode alike in message and enum fields exactly when every name plays the same role in both snapshots |
| Compat.EnumDecodesAlike | src/chat/dataCompatibility.ts:88-100 | an enum field decodes alike whatever it holds exactly when all values have the same labels |
| Compat.MessageNeedsRole | src/chat/dataCompatibility.ts:87-87 | a message field decodes alike whatever it holds only if its type is a message in both snapshots or in neither |
| Compat.MapDecodesAlike | src/chat/dataCompatibility.ts:113-125 | a map field decodes alike exactly when each of its values does |
| Compat.Observer.InspectEnums | src/chat/dataCompatibility.ts:92-99 | the loop over a packed enum accepts only payloads whose values get the same labels from both snapshots, and every payload of values known alike within the limit |
| Compat.Observer.InspectField | src/chat/dataCompatibility.ts:81-126 | an inspected field, nested to any depth, decodes to the same value in both snapshots if names keep their roles, and scalars have the wire type of their code; data that fits within what is left of the limits is accepted, at no more than its own work |
| Compat.Observer.InspectMessage | src/chat/dataCompatibility.ts:127-140 | an inspected message decodes to the same tree in both snapshots if names keep their roles; one that fits within what is left of the limits is accepted |
| Compat.Observer.OnField | src/chat/dataCompatibility.ts:145-163 | while no failure is reported every field seen has one descriptor and, if names keep their roles, agrees exactly when the values of a map that also names a type in T do; and no failure is reported as long as all fields seen have one descriptor and hold data that fits, together within the work limits |
| Compat.AcceptedAgrees | src/chat/dataCompatibility.ts:145-163 | where names keep their roles and the map names no type in T, an accepted field decodes alike |
| Compat.HiddenEnum | src/chat/dataCompatibility.ts:59-60 | a field of an enum hidden by a message of its name meets the condition for acceptance although its value has another label |
| Compat.HiddenMapValue | src/chat/dataCompatibility.ts:157-158 | a map that also names a type in T meets it although its value decodes to another label |
| Compat.AcceptsHiddenEnum | src/chat/dataCompatibility.ts:145-163 | the observer, shown that enum field, reports no failure |
| Compat.AcceptsHiddenMapValue | src/chat/dataCompatibility.ts:145-163 | the observer, shown that map, reports no failure |
| Bubbles.MergeBubbles | src/chat/chatMerge.ts:799-849 | the merged rows in strict key order are the three-way merge of the tables, or nothing when a key clashes |
| Bubbles.AnyPlan | src/chat/conflictResolution.ts:162-173 | merging two or more tips in any order and grouping succeeds exactly when they settle on one table, and gives it |
| Bubbles.PlansAgree | src/chat/conflictResolution.ts:162-173 | two ways of merging the same tips agree, refusals included |
| Bubbles.MergeCommutes | src/chat/chatMerge.ts:799-849 | the merge of two tables over a base is symmetric |
| Bubbles.MergeAssociates | src/chat/chatMerge.ts:799-849 | and associative, with a clash as the top element |
| Bubbles.MergeAbsorbs | src/chat/chatMerge.ts:799-849 | merging the result with either input again changes nothing |
| Bubbles.MergeIdempotent | src/chat/chatMerge.ts:799-849 | merging a table with itself keeps it exactly when it has all keys of the base |
| KvMerge.MergeAgentKvSnapshots | src/chat/chatMerge.ts:389-451 | refused exactly for its budgets; else a payload the validator accepts, with the row first seen for every materialized id and exactly the declared references |
| KvMerge.UnionKeepsContent | src/chat/chatMerge.ts:389-451 | every input blob's content is kept under its key |
| KvMerge.MissingFromWinner | src/chat/chatMerge.ts:389-451 | exactly the ids without a blob that the winner declares or its core names are missing |
| ChatMerge.ElectionBudget.Inspect | src/chat/chatMerge.ts:730-755 | a row is usable only if readable, and a limit strikes only when the row costs more than what is left |
| ChatMerge.ElectCompatibleCore | src/chat/chatMerge.ts:546-629 | the elected side is the one the rules name, or none; a spent budget means the budget was too small for these rows; the rules are spelled out by the next two members |
| ChatMerge.SameCoreElection | src/chat/chatMerge.ts:556-575 | with one composerData a side is always elected: the one with a payload if the chats differ in nothing else, and otherwise the first unless its last update is strictly older, absent counting as oldest |
| ChatMerge.DifferentCoreElection | src/chat/chatMerge.ts:576-629 | with different cores a side is elected exactly if it shows all it names and extends what the other, or the base it alone changed, shows |
| ChatMerge.FoldIsFreshest | src/chat/conflictResolution.ts:159-173 | when all candidates have one composerData the fold ends with the greatest last update |
| ChatMerge.ElectionHidesNothing | src/chat/chatMerge.ts:546-629 | the loser's visible messages are a prefix of the elected side's |
| ChatMerge.ElectionSymmetric | src/chat/chatMerge.ts:546-629 | when the cores differ the order of the sides does not matter |
| ChatMerge.FoldKeepsEverything | src/chat/conflictResolution.ts:159-173 | after the fold every candidate's visible messages come first in the result's, and all message keys of candidates and base are there |
| ChatMerge.FoldRenders | src/chat/conflictResolution.ts:159-173 | if all candidates show only messages they have, so does the result |
| MergeBudget.PortableChatCanonicalByteLength | src/chat/chatMerge.ts:1028-1053 | the length formula is the printed size of the snapshot |
| MergeBudget.ChatMergeStructureFitsBudget | src/chat/chatMerge.ts:948-1025 | accepted exactly when the row counts fit and the estimate is within the budget |
| MergeBudget.PreflightCovers | src/chat/chatMerge.ts:948-1025 | the estimate is at least the exact printed size of anything the merge builds |
| MergeBudget.MergeSnapshots | src/chat/chatMerge.ts:194-365 | a merged result is the elected core over the merged rows and payload, within both byte limits; a conflict or refusal has one of the listed causes |
| MergeBudget.MergedParsed | src/chat/chatMerge.ts:194-365 | the merged snapshot satisfies what the parser guarantees of its inputs |
| Origins.BeforeIsTotal | src/chat/conflictResolution.ts:397-400 | the comparison of orderings is total up to the creation time |
| Basics.LessMeans | src/protocol/canonical.ts:122-124 | texts compare by the first code unit in which they differ, a proper prefix first |
| Origins.FirstIsLatest | src/chat/conflictResolution.ts:397-400 | the first of a list has the greatest logical time, and among equal times the greatest device, event and version id in code-unit order |
| Origins.OriginSearch.OriginalOrdering | src/chat/conflictResolution.ts:402-469 | the memoised search answers as the plain recursive definition does, and meets the lookup limit only where no 64 versions suffice |
| Origins.OriginOfWrapper | src/chat/conflictResolution.ts:436-468 | a wrapper's origin is the first of its contributors' origins, exact content before same core before all parents |
| Origins.OriginMeaning | src/chat/conflictResolution.ts:402-469 | there is an origin exactly when the version rests on nothing unreadable and on no cycle, and it is one of the leaves it rests on, none of which has a greater logical time or, at the same time, a greater device, event or version id |
| Ancestry.EditedOrigin | src/chat/conflictResolution.ts:425-431 | an edited version is its own origin |
| Ancestry.ResolvedOrigin | src/chat/conflictResolution.ts:416-424 | a recorded resolution is the origin exactly if it is not later than the version and names a core |
| Ancestry.MarkerOrigin | src/chat/conflictResolution.ts:436-468 | a checkpoint marker has the origin of the version it marks |
| Ancestry.EnrichmentOrigin | src/chat/conflictResolution.ts:436-468 | an enrichment has the origin of the version it names as enriched |
| Ancestry.MergeOrigin | src/chat/conflictResolution.ts:436-468 | a merge has the latest origin among the parents whose content it repeats, or else whose core, or else all; none if a parent cannot be read |
| Origins.OriginSearch.TipOrigin | src/chat/conflictResolution.ts:362-383 | a tip has an origin exactly when it is the readable version it claims to be and the search finds one |
| Origins.OriginSearch.ElectLatest | src/chat/conflictResolution.ts:68-84 | elected exactly when every tip can win, and then no tip's origin has a greater logical time or, at the same time, a greater device, event or version id than the elected one's; equal origins go to the latest tip |
| Origins.FirstInStages | src/chat/conflictResolution.ts:83-84 | the first of two groups' firsts is the first of all |
| Origins.FirstOfSame | src/chat/conflictResolution.ts:83-84 | whatever the order of the list, its first has the same rank |
| Origins.RecordedOrigin | src/chat/conflictResolution.ts:302-312 | a version that records its origin has that origin, whatever its history |
| Origins.StagedElection | src/chat/conflictResolution.ts:302-312 | a version with the first origin of some versions stands for them in any later election |
| Origins.StagedResolution | src/chat/conflictResolution.ts:176-188 | a resolution stands for the versions it resolves in later elections exactly when the origin it records, the repeated candidate's if it repeats one, is the first of all |
| JsonString.UpdateCanonicalJsonString | src/chat/headerCanonical.ts:35-100 | the pieces join to QuoteJSONString of the value (section 25.5.2.3 of ECMA-262), none splits a surrogate pair or exceeds a chunk |
| JsonString.CanonicalJsonStringByteLength | src/chat/headerCanonical.ts:103-138 | the UTF-8 length of the quoted string |
| JsonString.UnquoteInverts | src/chat/headerCanonical.ts:35-100 | reading a quoted string gives it back, lone surrogates included |
| JsonString.QuoteShortest | src/chat/headerCanonical.ts:35-100 | no shorter text without lone surrogates reads as the string, so nothing is escaped without need or at length |
| JsonString.DecodeUtf8Inverts | src/chat/headerCanonical.ts:195-217 | encoding text without lone surrogates to UTF-8 (section 3 of RFC 3629) loses nothing |
| Base64.EncodeConcatenation | src/chat/stateVscdb.ts:3136-3178 | Base64 (section 4 of RFC 4648) of pieces of whole groups concatenates to Base64 of the whole |
| Base64.CharIs | src/chat/stateVscdb.ts:3136-3178 | the alphabet is that of table 1 of RFC 4648 |
| Base64.DecodeEncode | src/protocol/canonical.ts:49-70 | decoding undoes encoding |
| Base64.DecodedLengthExact | src/chat/continuationClosure.ts:223-229 | the length formula is exact on every text that passes the check |
| Canonical.UpdatePortableComposerHeaderHash | src/chat/headerCanonical.ts:170-193 | the header writer feeds the hash the printed header |
| Canonical.PortableChatCoreHash | src/chat/stateVscdb.ts:483-500 | the snapshot writer feeds the hash the printed core |
| Canonical.AnalyzeChatCore | src/chat/stateVscdb.ts:3215-3240 | the row-by-row writer feeds the hash the printed core of the re-encoded rows |
| Canonical.UpdatePortableKvRowHash | src/chat/stateVscdb.ts:3136-3178 | a row streamed in chunks of 192 KiB prints as the whole row |
| Canonical.StreamPortableChatCoreHash | src/chat/stateVscdb.ts:3090-3134 | the streaming writer feeds the hash the printed core of the stored rows |
| Canonical.FinishCoreHash | src/chat/chunked.ts:103-109 | the end of the core as chunked chats write it |
| Canonical.OneStream | src/chat/stateVscdb.ts:3090-3240 | streaming and row-reading writers feed the hash the same text exactly when every text value survives re-encoding |
| Canonical.CoreTextDetermines | src/chat/stateVscdb.ts:483-500 | equal core texts mean equal rows, composerData and composer id |
| Canonical.RowPrints | src/chat/stateVscdb.ts:3136-3178 | a row with a plain key as it is written, letter by letter |
| Lengths.SizeIs | src/protocol/canonical.ts:4-10 | printed JSON takes exactly its computed size |
| Lengths.PortableComposerHeaderCanonicalByteLength | src/chat/headerCanonical.ts:141-167 | the header formula is the printed size |
| Lengths.PortableKvRowCanonicalByteLength | src/chat/chatMerge.ts:1073-1086 | the row formula is the printed size |
| Lengths.PortableKvRowByteLength | src/chat/stateVscdb.ts:3082-3088 | key, class and length alone give the size of the printed stored row |
| Lengths.PortableChatCoreByteLength | src/chat/stateVscdb.ts:2974-3002 | the metadata-only formula is the length of the streamed core |
| Chunks.Packer.Append | src/chat/chunked.ts:134-139 | the contents grow by exactly this row; refused only when the row is too large or there is no room |
| Chunks.Packer.Flush | src/chat/chunked.ts:124-133 | the open rows become one part of one kind, contents unchanged |
| Chunks.PartPrints | src/chat/chunked.ts:124-133 | a part as it is written, letter by letter around its rows |
| Chunks.NoRoomMeans | src/chat/chunked.ts:134-139 | a part has no room for a row exactly if it has 512 rows or their printed bytes, commas and 256 bytes in reserve would exceed the limit |
| Chunks.FullMeans | src/chat/chunked.ts:124-133 | a capture is full exactly if it has 4096 parts or another would make more than 2 GiB |
| ChunkedChat.StatesAre | src/chat/chunked.ts:90-157 | the seeds are exactly the distinct states of composerData and the shown messages, and there are none only if one is invalid or some together exceed the limits |
| ChunkedChat.AllFoundMeans | src/chat/chunked.ts:142-157 | every id of the message index has a row under its own key, if there is an index |
| ChunkedChat.CaptureCore | src/chat/chunked.ts:115-157 | the packed core is composer row and messages in order, seeds and core hash are theirs; refused only for a listed cause |
| ChunkedChat.CaptureChunkedChat | src/chat/chunked.ts:112-171 | parts joined are exactly composer row, messages and reached blobs, packed greedily within limits, and the manifest describes them; refused only for a bad or missing row or want of room |
| ChunkedChat.CompleteSunk | src/chat/chunked.ts:158-171 | a complete streaming walk delivers exactly the ids of the closure |
| Staging.CaptureParses | src/chat/chunked.ts:188-213 | the manifest of every capture satisfies the parser's row-count and size equations |
| Staging.InsertPart | src/chat/chunked.ts:243-262 | a part is taken exactly when its rows are well formed and no key repeats |
| Staging.StagedRowMeans | src/chat/chunked.ts:243-262 | a row is staged exactly if it carries some bytes, under the chat's own keys or under their hash, with a storage class that fits them |
| Staging.ManifestBinds | src/chat/chunked.ts:234-249 | short of a hash collision, whatever is accepted for a manifest prints the same bytes part by part |
| Staging.StageChunkedChat | src/chat/chunked.ts:234-285 | staging accepts exactly when rows, counts, core hash and closure all agree |
| Staging.CaptureStages | src/chat/chunked.ts:234-285 | a complete capture is staged again, core hash and all, exactly when every message key is well formed |
| Staging.BadKeyRefused | src/chat/chunked.ts:250-256 | a captured message with a key that is not well formed makes one of the parts refused |
| Enrich.ProbeOne | src/chat/enrichment.ts:1401-1430 | one probe keeps verified content, proves absent only what is not there, and debits at most the room left |
| Enrich.ProbeMissing | src/chat/enrichment.ts:1377-1432 | with nodes and bytes enough, every missing id not reached is found or proven absent |
| Enrich.AdditionalRawBytes | src/chat/enrichment.ts:1353-1365 | the debit is the bytes of exactly the walked blobs that were not retained |
| Enrich.BudgetIs | src/chat/enrichment.ts:1212-1228 | the budget is the most bytes whose Base64 fits beside the source and a reserve of a tenth of the room, at least 16 KiB and at most 1 MiB |
| Enrich.WalkBudgetIs | src/chat/enrichment.ts:1212-1240 | the walk gets the bytes of the states and retained rows and the budget, up to 512 MiB, and starts only if that leaves something for new blobs |
| Enrich.LiveContent | src/chat/enrichment.ts:1234-1320 | content is what a retained row holds, or else what the database has under the id's own key if its hash is the id |
| Enrich.ProbingIs | src/chat/enrichment.ts:1377-1432 | probing takes one node for every missing id not reached and the bytes of those that are verified |
| Enrich.VerifiedMeans | src/chat/enrichment.ts:1401-1430 | an id is verified exactly if the database has bytes under its own key that hash to it |
| Enrich.CollectLiveAgentKv | src/chat/enrichment.ts:1175-1486 | a payload exactly when the budget leaves room for new blobs and the walk meets no limit; it declares the closure, carries all that is available, finds every other missing id the remaining budget can pay for, and passes both checks |
| Enrich.ValidateSourceMissingPruneProof | src/chat/enrichment.ts:1022-1078 | valid exactly when only proven-absent missing ids are dropped and everything proven is dropped or found |
| Enrich.AssertAgentKvMonotonic | src/chat/enrichment.ts:973-1016 | no error exactly when no row changes and references go only if missing and allowed |
| Publish.VerifyActiveClosure | src/chat/enrichment.ts:797-815 | complete exactly when the snapshot's own rows hold its closure within the limits; doubtful exactly when it cannot be walked or is not declared |
| Publish.EmptyLegacyAgentKvPayload | src/chat/enrichment.ts:957-971 | exactly for a legacy chat whose states can all be read and refer to nothing |
| Publish.WorthPublishing | src/chat/enrichment.ts:632-670 | a new blob or a missing id given up is worth publishing by itself; what the source already has is not, but for an audit of an empty graph and a partition to correct |
| Publish.Decide | src/chat/enrichment.ts:632-743 | published exactly when the proposed payload has none of the listed faults |
| Publish.PlanEnrichment | src/chat/enrichment.ts:508-743 | what is published keeps the core and all rows, declares its closure and prunes only safely; nothing is published only for a listed cause; it applies the core exactly when nothing is missing |
| Publish.EnrichedParses | src/chat/stateVscdb.ts:2394-2470 | an enriched chat is refused by the parser exactly for its payload or its structural tokens |
| Publish.RunIsMonotone | src/chat/enrichment.ts:632-743 | over any run the core never changes, no row is lost, and a reference goes only at a step where it was missing, absent from the database and outside a complete closure |
| Publish.RunStaysComplete | src/chat/enrichment.ts:632-743 | once a chat's closure is complete it is complete at every later step of a run |
| RepairScan.StructureOfPrinted | src/chat/repair.ts:1744-1799 | printed JSON passes the scanner exactly when it nests no deeper than allowed, and costs one token more than its punctuation |
| RepairBudget.RepairRowJsonWork.ConsumeStructure | src/chat/repair.ts:1744-1799 | the loop finds the text's shape and debits its tokens, or latches exactly when depth or budget is exceeded |
| RepairBudget.RepairRowJsonWork.Inspect | src/chat/repair.ts:1672-1715 | the cached inspection is the row's own verdict, or a refusal exactly when the rows read so far and this one do not fit |
| RepairBudget.UsableMeans | src/chat/repair.ts:1672-1715 | a row is usable exactly if it is not null and its bytes are text that nests no deeper than allowed and parses |
| Repair.ReferencedBubbleKeys | src/chat/repair.ts:2472-2519 | the row keys composerData names, if it exposes a recognized list |
| Repair.AuditChatReferences | src/chat/repair.ts:2227-2282 | refused for the budget exactly when the rows it reads do not fit, else exactly the unavailable references |
| RepairPlan.RepairKeepsLive | src/chat/repair.ts:2410-2418 | every usable live row is kept as it is |
| RepairPlan.RepairKeepsKeys | src/chat/repair.ts:2379-2418 | exactly the keys of the conversation, the selected version and newer ones are kept |
| RepairPlan.RepairInventsNothing | src/chat/repair.ts:2379-2418 | every row is the conversation's or a trusted version's, and damaged only where no version had better |
| RepairPlan.RepairRestores | src/chat/repair.ts:2302-2378 | an unavailable message comes back with the selected version's exact value; RestoredValue says so of the bytes |
| RepairPlan.RestoresExactly | src/chat/repair.ts:2302-2378 | a plan restores exactly when something is missing, a trusted version has usable rows for all of it, and every usable row a newer trusted version has for a missing message has the same bytes and storage class |
| RepairPlan.RestoredValue | src/chat/repair.ts:2341-2378 | each missing message comes back with the bytes and effective storage class of the selected version's row |
| RepairPlan.IdentityMeans | src/chat/repair.ts:2543-2547 | two rows count as one value exactly if bytes and effective storage class are the same, text where none is given and the bytes are UTF-8 |
| RepairPlan.RepairCompletes | src/chat/repair.ts:2289-2460 | the repaired conversation refers to the same messages and has them all |
| RepairPlan.RepairSettles | src/chat/repair.ts:2289-2460 | a repaired conversation is never repaired again |
| RepairPlan.OlderVersionsIrrelevant | src/chat/repair.ts:2302-2338 | versions older than the selected one never change a repair |
| RepairBuild.BuildChatRepairSnapshot | src/chat/repair.ts:2289-2460 | the shared cache never changes an answer: the result is the plan's, whose rows and refusals RepairPlan.RestoresExactly and RepairPlan.RestoredValue spell out, refused for the budget exactly when it cannot pay for the rows the build reads, or unparseable; a repaired chat passes a fresh audit |
| RepairBuild.RepairParses | src/chat/repair.ts:2432-2439 | the parser refuses a repair of parsed chats exactly when it has more than 262,144 structural tokens |
| Reparse.ParsePortableChatSnapshot | src/chat/stateVscdb.ts:2394-2470 | a printed snapshot parses exactly when its structure and its fields are within the rules |
| Reparse.UuidIs | src/chat/stateVscdb.ts:2419-2419 | a composer id is five groups of hexadecimal digits between dashes |
| Reparse.TokensExact | src/protocol/jsonStructure.ts:47-148 | the tokens of a printed snapshot in closed form, and that its nesting never matters |
| Reparse.TooManyRows | src/chat/stateVscdb.ts:2394-2404 | a snapshot of more than 43,684 messages is always refused |
| Reparse.RowsWithinTokens | src/chat/stateVscdb.ts:2440-2440 | the limit of 250,000 rows never strikes before the token limit |
| Reparse.PartStructureFits | src/chat/chunked.ts:245-246 | the structural budget of a part never strikes: 512 rows print fewer than 65,536 tokens |
| FileTree.BoundedFileTreeWalker.Step | src/chat/boundedFileTree.ts:160-262 | one work item takes one item off what is left of the walk and raises the progress token |
| FileTree.BoundedFileTreeWalker.Advance | src/chat/boundedFileTree.ts:104-288 | a page is the next piece of the depth-first walk within its limits, and ends early only when one of them is used up; a failed page discards the state and leaves the token |
| FileTree.WalkInPages | src/chat/boundedFileTree.ts:104-288 | pages of any limits joined are one whole depth-first walk, and finitely many pages settle it |
| FileTree.ListsExactly | src/chat/boundedFileTree.ts:221-262 | the walk lists exactly the wanted files and directories below descended directories |
| FileTree.ListsOnce | src/chat/boundedFileTree.ts:221-262 | and each once |
| FileTree.WholeWork | src/chat/boundedFileTree.ts:104-288 | the work is two items plus two and the entries for every directory entered |
| FileTree.FitsExactly | src/chat/boundedFileTree.ts:190-199 | the depth limit is met exactly when some entered directory lies 64 or more levels down |

## Left out

- SQLite, files, encryption, the network, locks and asynchronous scheduling: the store is a fixed keyed map with
  failing, missing, over-budget and malformed answers; rows that change during a lookup are failing answers.
- SHA-256, lossless UTF-8 decoding and JSON parsing are parameters; the scan of a snapshot for conversation states is a
  parameter that depends on the core only.
- Loops over JavaScript maps and sets are modelled in an arbitrary order where no result depends on it.
- Warnings, error texts, the enrichment attempt cache and the priority of candidates.
- Walker.WalkAgentKvReachability: does not report the depth of each blob; that no message overflows the node limit with
  map keys is sufficient for every returned id to be reachable, and not necessary, because a message may overflow
  without anything superseded in it, and finding that out takes the very order in which the parse gives up.
- Schema.SemanticParseContext.WalkSchemaMessage: keeps the last payload of a repeated embedded message, as the code
  does, and does not merge occurrences as the protobuf rule says.
- Compat.Observer.OnField: speaks of each reported field; the walk goes into the last occurrence of an embedded message
  only, so there is no statement that a whole blob, superseded occurrences included, decodes alike.
- Compat.MessageNeedsRole: one direction only; which contents of a message expose a difference depends on field numbers
  a path of nested messages can carry.
- Origins.OriginSearch.OriginalOrdering: parsed orderings and effective sync origins are inputs, and a version's own
  ordering is the same wherever it is read.
- Origins.StagedResolution: that a published resolution records its origin with a later logical time is a hypothesis.
- MergeBudget.MergeSnapshots: starts from parsed snapshots; `buildChatContinuationCandidate` and the checks that pick a
  merged result over the latest tip are not part of this model.
- Lengths.PortableChatCoreByteLength: lengths are unbounded numbers, so the refusal of unsafe integers is missing.
- Staging.StageChunkedChat: starts from the parsed contents of each part; their structural budget is not checked there,
  as `Reparse.PartStructureFits` shows it never strikes on what a capture packs.
- Publish.PlanEnrichment: the declared-size check before a source is read and the metadata of the published version.
- RepairBuild.BuildChatRepairSnapshot: inspection of raw database rows and fingerprints of references are missing.
- FileTree.BoundedFileTreeWalker.Advance: the tree is static, and checks of real paths, links and identities are missing.
- The adapter's scan of the live database, recovery catalogues, transcripts and workspace state: polling policy and
  bookkeeping that would add only easy members.
