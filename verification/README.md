# Reelm, verified

Reelm is a record/replay proxy for LLM providers. A request is reduced to a canonical form, the form is
hashed, and the answer recorded for a hash is what every later request with that hash is served. This
project models the parts that carry that promise and proves them together, in Dafny 4.11.

`dafny verify dfyconfig.toml` checks everything.

## What is modelled

**The cassette store.** `StoreMachine` is the store as single steps: write a temporary file, rename it onto
its target, update the index, remove a file, visit a file during a rebuild, crash, reopen with or without the
index file. A crash may follow any step, failures of single steps are steps too, and a running `RebuildIndex`,
which takes no lock, interleaves with everything. `StoreTheorems` proves that the store is a plain map from
hash to cassette that changes only at renames and removals, and that a crash never shows anything else.
`Rebuild` treats `RebuildIndex` on arbitrary directories, `Queries` namespace queries and pruning, alone and
interleaved. `DiskStore` and `Index` are the Go objects as classes; `SaveRuns`, `DeleteRuns` and
`ScanComputesRebuilt` show that what their methods do is a run of the machine.

Three hypotheses are explicit (`Legal`): one serializer format that reads back what it wrote, a hash that
determines its namespace, and a file path that stays under the base directory. The second is discharged by
`HashDeterminesNamespace`, the third by `PlainNamespacesStay` for namespaces without a ".." component. For the
path the exact condition is `SurvivesIndexLossIff`, with `NamespaceCanLeadOut` as the input that fails;
`SeparatorBreaksDistinctness` shows why hashes must not contain a slash.

**Canonicalization and hashing.** `Json` is a concrete RFC 8259 printer and parser over tokens, with
encoding/json's escapes; `JsonProofs` proves that the parser undoes the printer, whatever blanks stand between
tokens, and accepts exactly the renderings of values. `Spellings` states how RFC 8259 lets strings, numbers and
blanks be written, without the lexer, and proves that exactly this is read. `CanonicalJson` is `CanonicalizeJSON`, proved to be a
normal form against an independent notion of "same value". `Canonic` encodes the canonical request and proves
the encoding injective. `Tools` is the stable tool sort, `Text` is `NormalizeText`. `OpenAI` (with Azure on
top) and `Anthropic` are the canonicalizers. For both, equality of canonical requests is characterised in both
directions by an equivalence of what the bodies say: `OpenAI.Equivalent` and `Conversation.Equivalent`.
`Bodies` ties requests to body texts in both directions, by the values at literal member names; `Requests` and
`Encoding` do the same for the canonical request and for the text that is hashed.

The collapses that the design does not ask for come out of that with their exact conditions. A text is taken for a
list, an object, a number or a boolean that it spells, and a blank one for null or absence (`TextPassesIff`).
A system prompt is taken for a first message (`SystemPassesForMessageIff`). Text blocks are taken for a string
with their lines, and other blocks for a line that spells them (`BlocksPassForStringIff`).

**Streams.** `Sse` cuts a stream into chunks and proves that the decomposition is unique, and exactly for which
streams chunks end where the WHATWG HTML Standard (section 9.2.6) dispatches events. `Streaming` holds the
recorder and the replayer as classes, with conservation of bytes on every exit and the timing arithmetic.

**The handler.** `Handler` is the mode dispatch over the disk store. `AutoMode` is auto mode as concurrent
requests over the store machine, with failing saves, crashes and reopenings: what lookups find, how often the
upstream is called, and that it is called that often. `EndToEnd` joins the parts.

## Parameters instead of I/O

Clock readings, walk results, failures, upstream answers and the number of bytes a client still accepts are
parameters. The serializers are a pair of functions. SHA-256 is a function to 64 hex digits that is assumed
collision-free on the texts that are ever hashed. `Floats` is what encoding/json prints for the number a token denotes.

## Model

| member | source | states |
|---|---|---|
| Paths.FileName | pkg/store/store.go:66-79 | the file name at the end of every cassette path is hash plus extension, for any namespace |
| Paths.DistinctHashesDistinctPaths | pkg/store/store.go:66-79 | two different hashes without a separator never share a file, whatever their namespaces |
| Paths.SeparatorSharesPath | pkg/store/store.go:66-79 | with a slash in a hash they can: a hash behind its own prefix and a slash has the path of the hash in the namespace of that prefix |
| Paths.SeparatorBreaksDistinctness | pkg/store/store.go:66-79 | a concrete pair |
| Paths.StaysInside | pkg/store/store.go:66-79 | a path that does not climb is found below the base directory, and Rel of it is the path that was saved |
| Paths.PlainNamesDoNotClimb | pkg/store/store.go:66-79 | no ".." in the namespace and no dot in the hash keep a cassette below the base directory |
| Paths.TempIsIgnored | pkg/store/store.go:108-109 | a temporary file is no cassette file for the walks |
| Paths.FileNameEnds | pkg/store/store.go:66-79 | the file name ends in the extension whatever hash and namespace are |
| Paths.Layout | pkg/store/store.go:64-79 | the documented layout: namespace, first two characters of the hash, hash and extension |
| Paths.ShortHashLayout | pkg/store/store.go:68-73 | hashes of fewer than two characters go to "xx" |
| Paths.CleaningRules | pkg/store/store.go:76-78 | what filepath.Join does with each kind of component; a name followed by ".." cancels out |
| Paths.UpRules | pkg/store/store.go:76-78 | above the root there is only the root; a relative path keeps what leads out of it |
| Paths.JoinOfCleaned | pkg/store/store.go:90-91 | joining the cleaned path to the base directory is joining the uncleaned one |
| Paths.CassetteNamesAre | pkg/store/store.go:205-208 | cassette files are those whose names end in .yaml, .yml or .json, in either case |
| Cassettes.FormatIsJsonIff | pkg/store/store.go:143-149 | files ending in .json are read as JSON, all others as YAML |
| Index.DeleteUndoesPut | pkg/store/index.go:57-168 | deleting a fresh entry under its namespace restores the whole index |
| Index.UpdatesKeepWellFormed | pkg/store/index.go:57-168 | Put and Delete keep namespace lists nonempty and free of duplicates |
| Index.Index.Put | pkg/store/index.go:57-96 | forward entry set, hash appended to its namespace list unless it is there or the namespace is empty |
| Index.Index.GetPath | pkg/store/index.go:99-115 | the indexed path, or not found |
| Index.Index.GetHashesByNamespace | pkg/store/index.go:118-133 | the list of the namespace, empty when there is none |
| Index.Index.Delete | pkg/store/index.go:136-168 | forward entry removed; with a namespace, the hash leaves its list in order, and an empty list disappears |
| StoreMachine.PathFacts | pkg/store/store.go:66-79 | an admissible hash's file lies below the base directory under a cassette name of the store's format |
| StoreMachine.StepKeepsInv | pkg/store/store.go:82-191 | every single step, failures and crashes included, keeps index, files and live map consistent |
| StoreMachine.RunKeepsInv | pkg/store/store.go:82-191 | the invariant holds after every run |
| StoreTheorems.LoadIsLookup | pkg/store/store.go:127-157 | in every phase LoadByHash yields the live cassette of an indexed hash and nothing for others |
| StoreTheorems.StoreIsAMap | pkg/store/store.go:33-298 | after every run of saves, deletes, rebuilds, crashes and reopenings LoadByHash agrees with a plain map; hashes whose index update or removal failed since the last reopening may read as absent |
| StoreTheorems.AfterRecovery | pkg/store/store.go:34-62 | after a crash and a reopening, even without the index file, exactly the committed map is shown |
| StoreTheorems.CrashDuringSave | pkg/store/store.go:82-124 | a Save stopped anywhere shows its new value if and only if the rename was done, and touches no other hash |
| StoreTheorems.CrashDuringDelete | pkg/store/store.go:178-191 | a Delete stopped anywhere has deleted if and only if the file was removed, and touches no other hash |
| StoreTheorems.FailedRemovalComesBack | pkg/store/store.go:188-190 | a delete whose file removal fails is undone by the next reopening |
| StoreTheorems.KeptHashLoads | pkg/store/store.go:82-157 | from an idle moment at which a hash loads, it loads at every later one until it is deleted, whatever fails or crashes meanwhile, and yields the live cassette |
| StoreTheorems.SuccessfulSaveLoads | pkg/store/store.go:118-124 | a save without error makes its cassette load |
| StoreTheorems.FailedSaveMayLoad | pkg/store/store.go:112-121 | a save that fails at its index update has replaced what loads, when its hash was indexed before |
| Rebuild.LastFileWins | pkg/store/store.go:258-291 | in any directory a hash is mapped to the last file of the walk that carries it |
| Rebuild.UnseenKeepsEntry | pkg/store/store.go:258-291 | a hash that no file carries keeps its entry or its absence |
| Rebuild.ListsGrow | pkg/store/index.go:67-92 | namespace lists only grow, at their end and without repeating a hash |
| Rebuild.GainsAreCarried | pkg/store/index.go:67-92 | what a list gains is carried by visited files |
| Rebuild.VisitedAreListed | pkg/store/index.go:67-92 | every visited cassette with a namespace is listed there |
| Rebuild.RebuildIsIdempotent | pkg/store/store.go:258-291 | rebuilding twice equals rebuilding once |
| Rebuild.TempFilesAreIgnored | pkg/store/store.go:264-267 | temporary files make no difference to a rebuild |
| Rebuild.GreatestFileWins | pkg/store/store.go:258-291 | in WalkDir order the greatest path with a hash wins |
| Rebuild.YamlShadowsJson | pkg/store/store.go:264-277 | of a JSON and a YAML file of one hash side by side the YAML file is indexed |
| Rebuild.ScanComputesRebuilt | pkg/store/store.go:258-291 | the machine's visits and index updates compute the rebuilt index |
| Rebuild.RecoveryRuns | pkg/store/store.go:34-62 | every state can be recovered by a reopening |
| Rebuild.FailedScanKeepsPrefix | pkg/store/store.go:258-291 | a rebuild whose index update fails stops there and keeps what it had recorded; an opening store stays closed |
| Rebuild.SurvivesIndexLossIff | pkg/store/store.go:66-79 | in any directory in which no other file carries its hash, a saved cassette is found again after index loss if and only if its path lies below the base directory |
| Rebuild.NamespaceCanLeadOut | pkg/store/store.go:75-77 | a namespace whose path does not |
| DiskStore.SaveRuns | pkg/store/store.go:82-124 | Save, with any fault, is a run of the machine made of steps of Save only |
| DiskStore.SuccessIsIndexed | pkg/store/store.go:82-124 | what Save returns for each fault, and that it returns nothing exactly when its run has the index step |
| DiskStore.SavedLoads | pkg/store/store.go:82-157 | after a Save without error its cassette loads, for any hash and namespace, and what other files hold loads as before |
| DiskStore.FailedSaveKeeps | pkg/store/store.go:94-121 | a failing Save leaves the index and, before its rename, every file but its temporary one |
| DiskStore.DeleteRuns | pkg/store/store.go:178-191 | Delete, with any failure, is a run of the machine |
| DiskStore.DiskStore.Open | pkg/store/store.go:34-62 | opening rebuilds the index; it fails if an index update does, and the index keeps the files visited before |
| DiskStore.DiskStore.Save | pkg/store/store.go:82-124 | no error if and only if the cassette can be serialized and no fault strikes, the error of each fault in the order they are met, files and index, and that a Save without error makes the cassette load |
| DiskStore.DiskStore.LoadByHash | pkg/store/store.go:127-157 | the indexed file, decoded by its extension, or an error |
| DiskStore.DiskStore.LoadByNamespace | pkg/store/store.go:160-175 | the loadable cassettes of the namespace list, in order |
| DiskStore.DiskStore.Delete | pkg/store/store.go:178-191 | not found, or file and forward entry gone, namespace lists untouched |
| DiskStore.DiskStore.List | pkg/store/store.go:194-237 | one entry per readable cassette file, in walk order |
| DiskStore.ListIsExact | pkg/store/store.go:194-237 | the entries are exactly those of the readable cassette files of the walk, in its order, with the fields of their cassettes |
| DiskStore.DiskStore.Prune | pkg/store/store.go:240-255 | deletes the old listed hashes one by one, with any failures, and counts the deletions without error |
| DiskStore.DiskStore.RebuildIndex | pkg/store/store.go:258-291 | the index after visiting the files in walk order, all of them or those before a failing index update |
| Queries.NamespaceResultsWereLive | pkg/store/store.go:160-175 | under any interleaving each returned cassette was live in that namespace at some moment of the call |
| Queries.NamespaceReturnsSteadyHashesOnce | pkg/store/store.go:160-175 | no hash is returned twice, and a hash that is live and settled when the query starts and at its loads is returned |
| Queries.NamespaceReturnsIffListed | pkg/store/store.go:160-175 | a hash settled at the loads is returned exactly when it was listed at the start |
| Queries.QueryMayMissFirstSave | pkg/store/store.go:160-175 | a query that starts between the rename and the index update of a first save misses the hash, live from then on |
| Queries.NamespaceQueryIsFilter | pkg/store/store.go:160-175 | undisturbed, a query is the filter of the live map, despite dead hashes in the lists |
| Queries.NamespaceQueryAfterRun | pkg/store/store.go:160-175 | the same after every run |
| Queries.PruneIsExact | pkg/store/store.go:240-255 | Prune goes for exactly the indexed cassettes older than the threshold; which of them are gone, hidden or kept with failing deletions, and that it returns the number of deletions without error |
| Queries.PruneAfterRun | pkg/store/store.go:240-255 | the same after every run, in terms of what LoadByHash shows before and after |
| Queries.PruneRemovesOnlyListedOld | pkg/store/store.go:240-255 | interleaved with anything, every hash Prune removes was live and old when it took its list |
| Queries.InterleavedPruneSparesOthers | pkg/store/store.go:240-255 | a hash that was live and not old in the list, and that nobody else removes, stays live |
| Queries.InterleavedPruneRemovesOld | pkg/store/store.go:240-255 | a hash that was live and old in the list is not live after its turn, if it was still indexed and its file could be removed |
| Queries.PrunedIsOldIff | pkg/store/store.go:247-252 | the cassette Prune removes is older than the threshold if and only if the last one saved for its hash since the list, if any, is |
| Queries.PrunedIsOldIffNoYoungerSave | pkg/store/store.go:247-252 | with saves in recording order: if and only if no younger cassette of its hash was saved since |
| Queries.PruneMayRemoveRecentSave | pkg/store/store.go:247-252 | such a Prune: it takes its list, the hash is recorded anew, and the recent recording is removed |
| Text.NormalizeIsAnIdempotentScan | pkg/hasher/canonicalize.go:11-15 | two replacement passes and a trim are one scan and a trim; no CR remains; idempotent |
| Text.LineEndsDoNotMatter | pkg/hasher/canonicalize.go:11-15 | all spellings of a list of lines normalize alike, line ends mixed freely where they are unambiguous |
| Text.UniformLineEndsAgree | pkg/hasher/canonicalize.go:11-15 | the all-LF, all-CRLF and all-CR spellings agree |
| Text.OuterSpaceDoesNotMatter | pkg/hasher/canonicalize.go:11-15 | outer whitespace makes no difference |
| Text.JoinedAlikeIff | pkg/hasher/providers/anthropic.go:130 | joined texts are equal exactly when they have the same lines, however these are split into texts |
| Text.SpacesAre | pkg/hasher/canonicalize.go:14 | a single character normalizes to nothing exactly when it is one of Unicode's white spaces |
| JsonProofs.PrintParsesBack | pkg/hasher/hasher.go:67 | the parser undoes json.Marshal's compact output |
| JsonProofs.LayoutParsesBack | pkg/hasher/canonicalize.go:20 | blanks between tokens make no difference to parsing |
| JsonProofs.ParseExactly | pkg/hasher/canonicalize.go:20 | a text parses to a value exactly when its tokens render that value; how tokens are spelled is the subject of the Spellings rows |
| Spellings.EverySpellingParses | pkg/hasher/canonicalize.go:20 | every text of a value parses to it: each character of each string as itself, by its short escape, as four hex digits of either case or as its surrogate pair, and any blanks between tokens (RFC 8259) |
| Spellings.ReadBodyIsSpelled | pkg/hasher/canonicalize.go:20 | what is read as a string was spelled in one of these ways; a surrogate without its partner is read as U+FFFD |
| Spellings.NumeralIsNumber | pkg/hasher/canonicalize.go:20 | every numeral of section 6 of RFC 8259 is read as a number |
| Spellings.NumberIsNumeral | pkg/hasher/canonicalize.go:20 | and only those |
| Spellings.BlanksAre | pkg/hasher/canonicalize.go:20 | space, tab, line feed and carriage return may stand before a value, and nothing else |
| Spellings.PrintIsRendered | pkg/hasher/canonicalize.go:23-30 | the compact printer is the plain concatenation of brackets, commas, colons and quoted strings |
| Spellings.EscapesAre | pkg/hasher/canonicalize.go:24 | which characters are escaped and how, with and without HTML escaping |
| Spellings.CanonicalTextIs | pkg/hasher/canonicalize.go:18-31 | the canonical text is the compact rendering, without HTML escaping, of the sorted and formatted value that is the same as the text's; an invalid text stays |
| CanonicalJson.CanonicalIffSame | pkg/hasher/canonicalize.go:18-31 | two valid texts canonicalize alike if and only if they denote the same value |
| CanonicalJson.CanonicalizeIsIdempotent | pkg/hasher/canonicalize.go:18-31 | canonicalizing again changes nothing, for invalid texts too |
| CanonicalJson.CanonicalAlikeIff | pkg/hasher/canonicalize.go:18-31 | any two texts canonicalize alike if and only if they are equal or both valid and of the same value |
| CanonicalJson.DecodedAlikeIffSame | pkg/hasher/canonicalize.go:19-20 | decoding identifies exactly the values that are equal as maps with the last duplicate winning |
| Canonic.EncodeIsInjective | pkg/hasher/hasher.go:16-51 | the hashed bytes determine the canonical request |
| Encoding.EncodingTells | pkg/hasher/hasher.go:16-51 | the hashed text tells exactly one request: every field under its JSON name, in declaration order, empty omitempty fields left out |
| Canonic.HashIdentifies | pkg/hasher/hasher.go:62-74 | hashes agree exactly for equal canonical requests |
| Canonic.HashDeterminesNamespace | pkg/hasher/hasher.go:16-17 | a hash determines its namespace |
| Tools.CanonicalizeTools | pkg/hasher/canonicalize.go:34-49 | the in-place insertion sort of a copy computes the stable sort |
| Tools.StableOrderIsUnique | pkg/hasher/canonicalize.go:42-46 | any stable sort by name yields this result |
| Tools.SortedAlikeIffNamedAlike | pkg/hasher/canonicalize.go:34-49 | two lists canonicalize alike if and only if for every name their sublists are equal |
| Tools.OrderDoesNotMatterIff | pkg/hasher/canonicalize.go:34-49 | order never matters if and only if tools of one name are equal |
| Tools.SortIsIdempotent | pkg/hasher/canonicalize.go:34-49 | sorting again changes nothing |
| Tools.SortIsPermutation | pkg/hasher/canonicalize.go:39-40 | no tool is lost or invented |
| Schema.FieldsAgree | pkg/hasher/providers/openai.go:21-35 | fields of bodies that hold the same values have equal contents |
| Bodies.ChatBodyIsSaid | pkg/hasher/providers/openai.go:21-63 | an OpenAI body is accepted as a request if and only if it is a JSON text whose members of the literal names say every field of it, tool calls and tools included |
| Bodies.MessagesBodyIsSaid | pkg/hasher/providers/anthropic.go:21-61 | the same for Anthropic bodies |
| Bodies.ChatReadsBack | pkg/hasher/providers/openai.go:21-63 | every OpenAI request is read back from every text of its body |
| Bodies.MessagesReadBack | pkg/hasher/providers/anthropic.go:21-61 | the same for Anthropic requests |
| Bodies.AcceptedIsChat | pkg/hasher/providers/openai.go:60-63 | every accepted OpenAI body is one of a request that ChatReadsBack speaks of |
| Bodies.AcceptedAreMessages | pkg/hasher/providers/anthropic.go:58-61 | the same for Anthropic bodies |
| Bodies.Int64Exactly | pkg/hasher/providers/openai.go:26-27 | an integer field takes exactly the decimal integers of 64 bits, and minus zero as zero |
| OpenAI.Canonicalize | pkg/hasher/providers/openai.go:55-177 | the canonical request of a body, or the error |
| OpenAI.CanonicalizeAzure | pkg/hasher/providers/azure.go:24-51 | the OpenAI request with provider azure and the deployment from the path as model |
| Requests.ChatIsCanonic | pkg/hasher/providers/openai.go:65-176 | the canonical request field by field: address, model, messages, the nine parameters under their names and no others, tools in stable order of names |
| Requests.ChatIsHashed | pkg/hasher/providers/openai.go:55-177 | from body to hashed text: the text tells the request that is, field by field, what the body says |
| Requests.AzureIsCanonic | pkg/hasher/providers/azure.go:24-51 | the same for Azure, with its provider name and model |
| Requests.AzureModelIsDeployment | pkg/hasher/providers/azure.go:38-49 | with "/deployments/" in the path the model is the segment after the first segment "deployments" |
| Requests.AzureModelIsKept | pkg/hasher/providers/azure.go:38-49 | otherwise it is that of the body |
| Requests.ToolNames | pkg/hasher/canonicalize.go:42-46 | tools are sorted by the string member "name" of their function, or by the empty name |
| OpenAI.ParamsDetermineFields | pkg/hasher/providers/openai.go:118-145 | the parameter map determines each of its nine fields |
| OpenAI.CanonicAlikeIffEquivalent | pkg/hasher/providers/openai.go:65-176 | two accepted bodies get equal canonical requests if and only if they are equivalent in what they say |
| OpenAI.ContentsAlike | pkg/hasher/providers/openai.go:68-82 | contents of all kinds get equal texts if and only if they are alike: texts by normalization, other values by equality, and the mixed cases |
| OpenAI.TextPassesIff | pkg/hasher/providers/openai.go:68-82 | a string is taken for some content that is no string if and only if its normalized text is empty or spells a list, object, number or boolean |
| OpenAI.TextMayPassForParts | pkg/hasher/providers/openai.go:69-76 | as for the empty list |
| OpenAI.BodyTextDoesNotMatter | pkg/hasher/providers/openai.go:60-63 | member order, layout and members outside the schema make no difference |
| OpenAI.HashesAgreeIffEquivalent | pkg/hasher/providers/openai.go:55-177 | hashes agree if and only if bodies are equivalent |
| Anthropic.Canonicalize | pkg/hasher/providers/anthropic.go:53-202 | the canonical request of a body, or the error |
| Requests.ConversationIsCanonic | pkg/hasher/providers/anthropic.go:63-201 | the canonical request field by field: address, model, turns in order after the system prompt, the six parameters under their names and no others, tools as OpenAI would have them |
| Requests.ConversationIsHashed | pkg/hasher/providers/anthropic.go:53-202 | from body to hashed text, as for OpenAI |
| Anthropic.FlattenBlocks | pkg/hasher/providers/anthropic.go:92-130 | text parts joined by line feeds, tool calls in order |
| Anthropic.StringIsOneTextBlock | pkg/hasher/providers/anthropic.go:89-104 | a string and a single text block give one message |
| Anthropic.CallsAndTextsCommute | pkg/hasher/providers/anthropic.go:93-130 | tool calls may move past the other blocks |
| Conversation.MessageRenders | pkg/hasher/providers/anthropic.go:85-138 | a canonical message has the role, the lines and blocks, and the calls that the body says |
| Conversation.SystemRenders | pkg/hasher/providers/anthropic.go:65-82 | a system prompt with text is one such turn |
| Conversation.CanonicAlikeIffEquivalent | pkg/hasher/providers/anthropic.go:63-201 | two accepted bodies get equal canonical requests if and only if their conversations, parameters and tools are equivalent in what they say |
| Conversation.SystemPassesForMessageIff | pkg/hasher/providers/anthropic.go:65-82 | a system prompt is taken for a first message exactly when that has role system, no calls and the same lines and blocks |
| Conversation.SystemMayPassForMessage | pkg/hasher/providers/anthropic.go:66-82 | so is every string prompt for a system message with its text |
| Conversation.BlocksPassForStringIff | pkg/hasher/providers/anthropic.go:89-131 | content blocks are taken for a string exactly when they hold no call and their lines and blocks spell its lines |
| Anthropic.BodyTextDoesNotMatter | pkg/hasher/providers/anthropic.go:58-61 | member order, layout and members outside the schema make no difference |
| Conversation.HashesAgreeIffEquivalent | pkg/hasher/providers/anthropic.go:53-202 | hashes agree if and only if bodies are equivalent |
| Conversation.StringAndTextBlockShareHash | pkg/hasher/providers/anthropic.go:89-104 | bodies that differ in giving one text as a string and as a text block have the same hash |
| Sse.DecompositionIsUnique | pkg/streaming/recorder.go:40-85 | splitting a concatenated well-formed chunk list gives the list back |
| Sse.ChunksAreWellFormed | pkg/streaming/recorder.go:40-85 | every stream splits into a well-formed chunk list that concatenates to it |
| Sse.ChunksEndAtDispatchesIff | pkg/streaming/recorder.go:51-66 | chunks end exactly at the dispatch points of the standard if and only if every CR without LF ends the stream or stands between two characters that end no line |
| Sse.ChunksEndAtDispatches | pkg/streaming/recorder.go:51-66 | in particular with CR only before LF |
| Sse.LoneCRBreaksAgreement | pkg/streaming/recorder.go:52 | a stream on which they differ |
| Streaming.StreamRecorder.PipeAndRecord | pkg/streaming/recorder.go:34-88 | bytes sent, full body, chunks, delays and result on every exit |
| Streaming.BytesAreConserved | pkg/streaming/recorder.go:34-88 | on success all byte sequences are equal; on an error chunks are a prefix of the body, and that of what was sent |
| Streaming.DelaysTelescope | pkg/streaming/recorder.go:57-64 | delays up to a chunk add up to its flush time minus the start |
| Streaming.StreamReplayer.Replay | pkg/streaming/replayer.go:37-63 | bytes sent, the chunk that a closed connection stops at, and the sleep before each chunk: none in instant mode, else its delay between 0 and 500 ms |
| Streaming.RecordingSleeps | pkg/streaming/replayer.go:47-54 | for a recording: no sleep in instant mode; in real time the sleep before each chunk is the clock difference capped at 500 ms, and the total is the sum of these |
| Streaming.ReplayKeepsTime | pkg/streaming/replayer.go:47-54 | the time slept never exceeds the recorded offset nor k times the cap, and equals the offset exactly when nothing was capped |
| Handler.Handler.ServeCassette | pkg/proxy/handler.go:299-342 | status and bytes of a served cassette |
| Handler.Handler.HandleReplay | pkg/proxy/handler.go:152-167 | hit or 404; no upstream call, store unchanged |
| Handler.Handler.HandleRecord | pkg/proxy/handler.go:170-296 | one upstream call, the answer passed on, when something is recorded and every field of it, what is saved for every failure, and that without fault the recording loads |
| Handler.Handler.Serve | pkg/proxy/handler.go:133-148 | the mode dispatch |
| Handler.RecordingServesItsAnswer | pkg/proxy/handler.go:215-342 | a recording holds the fields of its request and answer and the clock reading, and serves the recorded nonzero status and bytes; a stream cut by an error, a prefix of what its client saw |
| Handler.RecordingKeepsStream | pkg/proxy/handler.go:215-244 | a recorded stream: its body, its chunks and the delay of each by the clock |
| Handler.StreamsNeedFlushing | pkg/streaming/replayer.go:38-41 | a client that cannot flush gets the bytes exactly when there are no chunks |
| AutoMode.PlayKeepsInv | pkg/proxy/handler.go:138-144 | in every interleaving lookups answer what the idle store machine loads, and forwards need a miss each |
| AutoMode.LookupsAnswerFromTheMap | pkg/proxy/handler.go:138-144 | a hit serves the newest cassette renamed into place for its hash, whether or not its save reported an error; a miss means not live, or a failed index update or removal |
| AutoMode.SuccessfulSaveAnswers | pkg/proxy/handler.go:138-144 | after a save without error its hash loads |
| AutoMode.HitAnswers | pkg/proxy/handler.go:138-144 | a hit is such a moment too |
| AutoMode.CallsAreBounded | pkg/proxy/handler.go:138-144 | upstream calls for a hash are at most the lookups before it first loads, while it is not deleted after that |
| AutoMode.LaterLookupsHit | pkg/proxy/handler.go:138-144 | from then on every lookup hits until a deletion, through failing saves, rebuilds, crashes and reopenings, and serves the newest cassette of its hash |
| AutoMode.NoSingleFlight | pkg/proxy/handler.go:138-144 | for every n the bound is attained by n simultaneous requests |
| EndToEnd.SavedIsLoaded | pkg/store/store.go:82-157 | a successful save is what is loaded from then on, through crashes and restarts |
| EndToEnd.RecordingIsLegal | pkg/proxy/handler.go:224-280 | a recorded cassette meets the store's hypotheses |
| EndToEnd.PlainNamespacesStay | pkg/store/store.go:66-79 | a namespace without a ".." component never leads out of the base directory |
| EndToEnd.RecordedIsReplayed | pkg/proxy/handler.go:133-342 | what was recorded for a canonical request is loaded under its hash ever after, with the recorded status and bytes |
| EndToEnd.PruneSparesIff | pkg/store/store.go:240-255 | a later Prune removes a recording exactly if its clock reading is before the threshold, unless file and index entry both stay; otherwise it loads as before |
| EndToEnd.EquivalentBodiesShareRecordings | pkg/proxy/handler.go:133-342 | after an OpenAI body was recorded, another one is answered from that recording if it is equivalent and has another hash if not, across restarts |
| EndToEnd.EquivalentConversationsShareRecordings | pkg/proxy/handler.go:133-342 | the same for Anthropic bodies |
| EndToEnd.NamespacesAreIsolated | pkg/hasher/hasher.go:16-17 | requests in different namespaces never share a hash |

## Left out

- Gemini requests: the canonicalizer is built from the same text, JSON and tool functions and adds no new kind of property.
- encoding/json struct decoding beyond exact member names: case-insensitive names, merging of repeated struct members (a repeated member counts as its last one, also where that is null), the nesting limit, invalid UTF-8.
- Floats: float64 decoding and formatting are one function with the law that formatting is stable.
- Tools.CanonicalizeTools: sorts by plain insertion, as sort.SliceStable does up to 20 elements; for longer lists StableOrderIsUnique covers the merge that follows.
- Lower: ASCII letters only, so roles with other capital letters are not folded.
- Index: bolt's key and value size limits, and the JSON form of namespace lists inside bolt.
- StoreMachine: a crash is the end of the process; the loss of writes that the operating system had not flushed is not modelled, nor are directories and their creation.
- Paths: a rooted namespace is stored without its leading separator, which the later join drops anyway.
- Handler: headers, logging, provider detection, upstream URLs, health checks and CONNECT; error answers without the detail some of them append.
- Durations: unbounded integers instead of 64-bit nanoseconds.
- Sse.ChunksEndAtDispatchesIff: says nothing of a leading byte order mark, which the standard drops before it looks for lines.
- DiskStore.DiskStore.Open: making the base directory, choosing a serializer by name and opening bolt cannot fail here.
