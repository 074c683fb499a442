# A model of the DKV benchmark harness

These modules model the algorithms of the benchmark tree around DKV and prove what they are for. Everything is
over exact numbers: tensors are sequences of reals, `exp`, `log`, `topk`, the tokenizer, the JSON parser, a
forward pass, a measured ladder point and a campaign step are parameters, with the laws they must obey written as
preconditions.

* **Streaming KV-cache engine** (`benchmarks/kv_baselines.py`). `KiviCodes` is the packed 2/4-bit codec, `KiviCache`
  the eager and the tiled cache layer as values, `KiviReadback` how far what they read back is from what was fed,
  `KiviLayer` the layer object whose fields the two `update` methods rewrite, `TiledAttention` and `TiledForward` the
  read of the history in tiles merged by log-sum-exp, `Streaming` the sinks-and-recency pruning, `H2O` and
  `H2OPrefill` the online heavy-hitter eviction, `H2OCache` its loop over chunks and layers, `Alignment`, `Selection`,
  `Shares` and `PostHoc` the eviction ranked by an observation window; `Entries` says in single attention entries what
  a token was paid.
* **Crash-safe store and its clients** (`benchmarks/checkpoint.py`, `benchmarks/context_ladder.py`,
  `benchmarks/campaign_chunked_eviction.py`). `Json` writes records and scans them, `JsonReader` reads them and
  `JsonRoundTrip` proves that reading undoes writing; `Log` is the file under power cuts, `KeyedLog` and `Records` are
  the views read back from it, `Store` the store object, `Sessions` its usage protocol, `Harness` any program that
  reads and extends the store over its bytes, `SessionsOnDisk` the protocol there, `WriterLock` the lock. `Ladder` is
  the climbing loop, `LadderRungs` its rungs one by one, `LadderProofs` its resumption, `LadderDoomed` what is skipped
  however it is resumed, `LadderLimits` kills that show, `LadderTransparency` exactly when none does, `LadderRepeats`
  contexts listed twice, `LadderCeiling` the stop rule, `LadderVerdicts` what every rung is recorded as,
  `LadderOnDisk` and `LadderCodec` the loop over the bytes of its store. `Campaign`, `CampaignOutcomes`,
  `CampaignSafety` and `CampaignGates` are the step driver.
* **Scoring and trace kernels** (`ACTIVE_RUNTIME/run_longbench.py`, `benchmarks/diag_granite_snapshot.py`,
  `benchmarks/run_longbench_cuda.py`). `Lcs`, `Scoring`, `AllocTrace`, `PromptEcho`.

`Nums`, `Seqs` and `Options` hold shared arithmetic, sequence lemmas and the optional value.

## Where the code falls short of its documentation

The model follows the code. Each item is proved with the condition under which the code does what it says.

* Chunk-wise streaming equals the one-shot policy unless `recency_window` is 0: the slice `[-0:]` keeps everything,
  and each chunk once more than the sinks are fed puts the sinks in front again (`Streaming.StreamingAgreesIff`,
  `Streaming.NoRecencyGrows`). The memory bound of cap plus one chunk needs a recency window for the same reason
  (`Streaming.BoundedIff`).
* Post-hoc eviction forces a recent block in by scoring it up, and pools afterwards: the slots before the block rank
  with it as far as a pooling window reaches, so the block is retained for sure exactly when there is room for them too
  (`PostHoc.RecentKeptIff`, a failing input in `PostHoc.PoolingDropsRecent`).
* Post-hoc eviction with a budget of 0 (or less) keeps one prefix token (`PostHoc.SelectCount`).
* A resumed ladder replays the rate it stored, rounded to thousandths and read as missing when it is 0, while the
  running one compares with the exact rate. With distinct contexts restarting is transparent exactly when no verdict
  depends on that (`LadderTransparency.DistinctIff`, a failing input in `LadderLimits.RoundingBreaksTransparency`).
* A context may be listed more than once, and its listings may straddle the stop rule: the first ones launched, the
  others skipped. A resumed ladder then forgets either the skip or the ceiling. `LadderTransparency.TransparentIff`
  gives the exact condition for restarts to be transparent, over the bytes of the store
  `LadderOnDisk.TransparentOnDiskIff`. Every oracle with exact rates meets it if and only if no context can straddle
  the stop rule (`LadderRepeats.ExactTransparentIff`, for the stop rule of one ceiling `LadderRepeats.StraddledOnce`);
  one that does hides its ceiling from the next resume (`LadderRepeats.RepeatedContextHidesCeiling`).
* The gate rule of the campaign depends on the step list: a gate that owns a result store may end as
  `done_with_errors` and lets the campaign move on (`CampaignGates.GatesHoldIff`). Such a gate is given one attempt
  whatever the retry limit (`CampaignGates.AttemptsHoldIff`).
* Closing an old handle of a process that has the store open again removes the live lock: a close lets a second
  process in if and only if it is of that kind (`WriterLock.CloseAdmitsTwoIff`, `WriterLock.StaleCloseReachable`).
* An allocation on a live address is counted twice by the allocator replay (`AllocTrace.RunningIsLiveIff`).
* The `matched` flag of the echo stripper is also set when the prompt was not found, as long as at most 200
  characters are shared (`PromptEcho.MatchedUnfoundIff`). The bound on generated tokens is skipped when the prompt was
  found (`PromptEcho.BoundHoldsIff`, a failing input in `PromptEcho.EchoExceedsBudget`).
* An item listed twice is run and recorded twice; the store's protocol holds exactly when no pending key repeats
  (`Sessions.WorkListIff`, over all stores `SessionsOnDisk.WorkResumesIff`).

## Model

| member | source | states |
|---|---|---|
| KiviCodes.UnpackPack | benchmarks/kv_baselines.py:696-713 | unpacking undoes packing, at both widths, on every row of codes that fit |
| KiviCodes.PackUnpack | benchmarks/kv_baselines.py:696-713 | packing undoes unpacking on every byte string, and unpacked codes always fit |
| KiviCodes.HalfStep | benchmarks/kv_baselines.py:742-747 | for a value between the extremes lo and hi the clamp never moves the rounded code, and reading it back is within half a step and within max(hi - lo, 1e-8)/6 at two bits, /30 at four |
| KiviCodes.ExtremesExact | benchmarks/kv_baselines.py:742-747 | extremes that are 1e-8 or more apart read back exactly, as code 0 and as the top code, 3 or 15 |
| KiviCodes.KeyGroupHalfStep | benchmarks/kv_baselines.py:738-755 | quantize, pack, unpack, dequantize a key group: every entry within half its channel's step, and within max(hi - lo, 1e-8)/6 or /30 for the extremes of its channel |
| KiviCodes.ValueHalfStep | benchmarks/kv_baselines.py:745-756 | the same for a value, with the extremes of its token |
| KiviCache.QuantCount | benchmarks/kv_baselines.py:736-737 | what leaves the window is the largest whole number of groups older than the held tail |
| KiviCache.QuantizeMoves | benchmarks/kv_baselines.py:797-828 | quantizing moves some tokens from the front of the window to the history: a whole number of groups that leaves max(R, keep_tail) of them behind and fewer than G more, or none when there are too few |
| KiviCache.EagerCanonical | benchmarks/kv_baselines.py:729-753 | after any run of updates the history encodes exactly the first max(0, ((n-R) div G)*G) tokens and the window is the rest verbatim |
| KiviCache.SameTokensSameCache | benchmarks/kv_baselines.py:729-761 | two ways of cutting the same tokens into calls leave equal codes, scales, window and count; stored + window = n; once n >= R the window is in [R, R+G) |
| KiviCache.EagerBelowResidual | benchmarks/kv_baselines.py:735-738 | below R tokens nothing is quantized |
| KiviCache.LazySimulatesEager | benchmarks/kv_baselines.py:831-843 | applying the pending quantization to the tiled state gives exactly the eager state, entry by entry, after every run |
| KiviCache.LazyCanonical | benchmarks/kv_baselines.py:788-792 | the tiled history is the eager history before the newest call, the window ends with that call verbatim and is shorter than R + G + new tokens |
| KiviReadback.StoredGroups | benchmarks/kv_baselines.py:738-749 | unit b of the stored key history is the quantized group of tokens b*G to b*G+G, whatever calls delivered them, and exists exactly when those tokens left the window |
| KiviReadback.GroupsAreAbsolute | benchmarks/kv_baselines.py:741-744 | the group whose step bounds a key's error is the one on its absolute multiple of G |
| KiviReadback.StoredKeyError | benchmarks/kv_baselines.py:739-755 | every stored key entry reads back within half the step of its channel in its own group, and within max(hi - lo, 1e-8)/6 or /30 for the channel's extremes there |
| KiviReadback.EagerReadback | benchmarks/kv_baselines.py:729-757 | after any run every token that left the window reads back, entry by entry, within max(hi - lo, 1e-8)/30 at four bits and /6 at two, for keys with the extremes of its channel in its own group and for values with those of its token; the window is the other tokens verbatim |
| KiviReadback.LazyReadback | benchmarks/kv_baselines.py:797-843 | so it does from the tiled layer, whose history is what left the window before the newest call |
| KiviLayer.Layer.Update | benchmarks/kv_baselines.py:729-757 | whatever width the layer was asked for, the new state is the four-bit eager step, and what is returned is the dequantized history followed by the window |
| KiviLayer.Layer.Absorb | benchmarks/kv_baselines.py:732-753 | the in-place state change of the eager update is the step of the value model |
| KiviLayer.Layer.ReadHistory | benchmarks/kv_baselines.py:755-756 | entries are dequantized in order into the restored history |
| KiviLayer.Layer.QuantizeWindow | benchmarks/kv_baselines.py:797-828 | whole groups older than max(R, keep_tail) move to the history, nothing else changes |
| KiviLayer.Layer.TiledUpdate | benchmarks/kv_baselines.py:831-843 | pending tokens are quantized first, the new ones appended, and only the window is returned |
| KiviLayer.PrefillEager | benchmarks/kv_baselines.py:949-956 | whatever the chunking, the layer ends up holding exactly the tokens fed, split at the canonical point, and reads every one back within the bound of its extremes |
| KiviLayer.PrefillTiled | benchmarks/kv_baselines.py:949-956 | the tiled layer ends one pending quantization away from the eager one, and reads every token back within the same bound |
| TiledAttention.MergeWeightsBounded | benchmarks/kv_baselines.py:907-909 | with the shift no merge weight exceeds one and one of them is one |
| TiledAttention.MergeTotals | benchmarks/kv_baselines.py:907-910 | the shifted merge is the quotient of summed numerators and summed normalisers |
| TiledAttention.TileTotals | benchmarks/kv_baselines.py:889-905 | normalisers and numerators of the tiles sum to those of the tokens they partition |
| TiledAttention.MergeIsSoftmax | benchmarks/kv_baselines.py:907-910 | merging by log-sum-exp is one softmax over the union, for any split into parts |
| TiledAttention.SoftmaxAttends | benchmarks/kv_baselines.py:846-862 | entry by entry: output times the sum of exp(scale * sum of q*k) is the sum of those weights times the values |
| TiledAttention.SoftmaxSwap | benchmarks/kv_baselines.py:881-905 | reading the window before the history does not change the softmax |
| TiledForward.HiddenAfter | benchmarks/kv_baselines.py:869-879 | the sliced or built mask hides exactly the window columns after the query's own token |
| TiledForward.MaskedWindow | benchmarks/kv_baselines.py:865-882 | the masked window read is softmax and normaliser of the window up to the query's own token |
| TiledForward.TakeTile | benchmarks/kv_baselines.py:889-899 | a tile takes entries in order, at least one, until it has 8192 tokens or they run out; without its last entry it has fewer |
| TiledForward.CutTiles | benchmarks/kv_baselines.py:886-899 | the tile loop ends and its tiles partition the history in order; none holds as much as 8192 tokens more than the largest entry |
| TiledForward.ReadTiles | benchmarks/kv_baselines.py:901-904 | output and log-sum-exp of every tile, in order |
| TiledForward.RowExact | benchmarks/kv_baselines.py:907-910 | window part and tiles merged are one softmax over history and window |
| TiledForward.MergeReads | benchmarks/kv_baselines.py:863-910 | one row's reads and merge are one softmax over the history and the window up to its own token |
| TiledForward.MergeTiles | benchmarks/kv_baselines.py:886-910 | the tiles' part of that, merged with what the window's part left |
| TiledForward.AttendRow | benchmarks/kv_baselines.py:863-911 | one row equals causal attention over everything cached |
| TiledForward.AttendHead | benchmarks/kv_baselines.py:863-911 | so does every query of a head |
| TiledForward.Attend | benchmarks/kv_baselines.py:846-912 | so does every query of every head of the group, over the restored history and the window; the history needs no mask |
| TiledForward.LazyEntries | benchmarks/kv_baselines.py:797-843 | every history entry a run produces is a non-empty batch of as many keys as values |
| TiledForward.HeldSixteen | benchmarks/kv_baselines.py:803-811 | at 16 bits history followed by window is every token verbatim |
| TiledForward.DenseTiledForward | benchmarks/kv_baselines.py:797-912 | dense_tiled end to end: after any run every output entry of the newest queries is the exp-weighted mean of the values of every token ever fed up to the query's own |
| Streaming.PruneExtended | benchmarks/kv_baselines.py:513-517 | pruning sinks and window extended by newer tokens gives the sinks and the newer window |
| Streaming.StreamedIsPostHoc | benchmarks/kv_baselines.py:487-521 | with a recency window, pruning after every chunk keeps exactly the one-shot positions, for all chunkings: all tokens while they fit the cap, else the first n_sink and the last recency_window |
| Streaming.SinksAndWindowAre | benchmarks/kv_baselines.py:487-490 | a position is kept exactly when it is one of the first n_sink or of the last recency_window, in order |
| Streaming.StreamingAgreesIff | benchmarks/kv_baselines.py:487-521 | exactly when the two policies agree |
| Streaming.NoRecencyGrows | benchmarks/kv_baselines.py:513-517 | without a recency window a layer ends with one copy of the sinks for every chunk that found more than the sinks fed, and then every token: its length is the tokens fed plus the sinks times those chunks |
| Streaming.LongestBounded | benchmarks/kv_baselines.py:491-493 | with a recency window no layer ever holds more than cap plus one chunk, for all chunkings |
| Streaming.BoundedIff | benchmarks/kv_baselines.py:491-493 | that bound holds of every prompt if and only if the recency window is not empty |
| Streaming.WholeChunks | benchmarks/kv_baselines.py:498-499 | every chunk but the last is whole, and the last when they divide the prompt |
| Streaming.PruneLayers | benchmarks/kv_baselines.py:506-517 | one chunk over all layers: each layer with keys and values is pruned, others are untouched, the longest is recorded |
| Streaming.PrefillStreaming | benchmarks/kv_baselines.py:498-521 | the whole loop leaves the streamed positions in every layer, with a recency window the first n_sink and the last recency_window within cap plus chunk, or reports that no layer holds keys and values |
| Selection.TopKIsOptimal | benchmarks/kv_baselines.py:393 | a top-k choice has the largest score sum of all choices of its size, however ties break |
| Selection.SortedLength | benchmarks/kv_baselines.py:393 | sorting the chosen indices lists each once |
| Selection.GatherSum | benchmarks/kv_baselines.py:586-589 | gathering the sorted choice sums to the choice |
| Selection.FirstBestIsLawful | benchmarks/kv_baselines.py:581-582 | repeatedly taking the best slot left is a top-k choice, so the law asked of topk can be met |
| H2O.StepHeld | benchmarks/kv_baselines.py:576-590 | the invariant: min(n, budget) positions in strictly increasing order ending with the newest min(recency, n) |
| H2O.Run | benchmarks/kv_baselines.py:541-590 | holds after every run of chunks |
| H2O.ScoreIsPaid | benchmarks/kv_baselines.py:569-590 | each survivor's score is the sum over chunks and rows of the entry that row has in the survivor's slot, since it arrived |
| H2O.GrownIsPaid | benchmarks/kv_baselines.py:569-578 | so it is of every cached slot while a chunk is scored, dropped or not |
| H2O.HeavyHittersStay | benchmarks/kv_baselines.py:579-585 | end to end, in attention entries: a token a chunk drops is not recent, and was paid no more than any older token that stays |
| H2O.SurvivorsNeverLeft | benchmarks/kv_baselines.py:579-589 | a position held at the end was held after every chunk since the one it arrived in |
| H2O.AttentionConserved | benchmarks/kv_baselines.py:569-590 | scores held plus mass evicted is query heads per group times queries seen, when rows sum to one |
| H2O.EvictionIsGreedy | benchmarks/kv_baselines.py:579-585 | no dropped slot is recent or outscores a kept older one |
| H2O.EvictionIsOptimal | benchmarks/kv_baselines.py:579-585 | no other choice of as many older slots keeps more score |
| H2OPrefill.GroupsCover | benchmarks/kv_baselines.py:569-575 | every attention row is pooled into exactly one key/value head, in order |
| H2OPrefill.GroupPays | benchmarks/kv_baselines.py:569-575 | what a head's rows pay a slot is the sum of that slot's entries over the rows of the query heads of its group |
| H2OPrefill.StepHeads | benchmarks/kv_baselines.py:569-590 | every head takes its own group's rows |
| H2OPrefill.OneForward | benchmarks/kv_baselines.py:555-590 | a forward is taken exactly when its attention matches the cache length and groups onto the heads |
| H2OCache.OnePass | benchmarks/kv_baselines.py:555-590 | one chunk over all layers: taken exactly when its attention fits every layer, each of which takes its own entry |
| H2OCache.PrefillCache | benchmarks/kv_baselines.py:535-595 | the whole cache: completes exactly when the arguments are sane, there is a prompt, some layer holds keys and values, and every chunk reports attention that fits each of them, whatever its number of heads; then every head holds what its own run leaves |
| H2OCache.CacheScores | benchmarks/kv_baselines.py:535-595 | every score left in the cache is what its token was paid, by the rows of its head's own run |
| H2OCache.CacheRowsPay | benchmarks/kv_baselines.py:569-575 | and those rows pay what the query heads of the head's group do in the attention of that chunk and layer |
| H2OCache.CacheBounded | benchmarks/kv_baselines.py:562-568 | no layer ever exceeds budget plus one chunk |
| H2OPrefill.LongestBounded | benchmarks/kv_baselines.py:562-568 | no layer ever exceeds budget plus one chunk |
| Alignment.AlignInOrder | benchmarks/kv_baselines.py:346-372 | either way of matching gives the i-th layer with keys and values the i-th present entry; it is refused exactly when the counts differ |
| Alignment.PresentAre | benchmarks/kv_baselines.py:346-372 | the present entries are listed in order, each once |
| PostHoc.PooledIsNearbyBest | benchmarks/kv_baselines.py:390-392 | a pooled score is attained by, and not exceeded by, the scores within half a kernel |
| PostHoc.SelectCount | benchmarks/kv_baselines.py:387-393 | max(1, min(keep, prefix)) slots are kept, so the budget is met exactly when it is at least one |
| PostHoc.SelectIsOptimal | benchmarks/kv_baselines.py:387-393 | no other choice of as many prefix slots has a larger sum of ranking scores |
| PostHoc.RecentFirst | benchmarks/kv_baselines.py:457-461 | pooling lifts the slots whose window reaches the recent block to its rank: when they fit the kept count with the block all of them are kept, when they fill it nothing else of the prefix is; for every kernel |
| PostHoc.BoostSpreads | benchmarks/kv_baselines.py:457-461 | the block and the slots before it as far as a window reaches rank at the boost, every other slot below it and as without a boost |
| PostHoc.RecentKeptIff | benchmarks/kv_baselines.py:457-461 | however topk breaks ties the recent block is retained, if and only if the kept count has room for the block and the slots pooling lifts with it |
| PostHoc.NewestDropped | benchmarks/kv_baselines.py:457-461 | without that room a topk that prefers the oldest of tied slots drops the newest prefix token and keeps a lifted one |
| PostHoc.PoolingDropsRecent | benchmarks/kv_baselines.py:457-461 | three prefix tokens, recency one, kernel three, one to keep: the recent token is dropped for its neighbour |
| PostHoc.OlderAreBest | benchmarks/kv_baselines.py:457-461 | the room the lifted slots leave goes to the best of the others, pooled or not: no other choice of as many of them has a larger ranking sum, and none dropped outranks one kept |
| PostHoc.KeptShape | benchmarks/kv_baselines.py:461-464 | the selected prefix tokens in strictly increasing order, then the whole window |
| Shares.SharesCover | benchmarks/kv_baselines.py:454-456 | the groups of query heads pooled onto the key/value heads are consecutive shares that cover all query heads once |
| PostHoc.GroupMeansConserve | benchmarks/kv_baselines.py:449-456 | averaging over groups neither loses attention nor counts it twice: weighed by group size, the scores of a token add up to its attention entries over all query heads and window rows |
| PostHoc.ScoreIsMass | benchmarks/kv_baselines.py:449-456 | a prefix token's score for a key/value head, times the group size, is the sum of its attention entries over the window's rows of the query heads of that group |
| PostHoc.KeptIsHeaviest | benchmarks/kv_baselines.py:449-464 | without pooling and without a recency window shorter than the prefix, no other choice of as many prefix tokens was paid more by the head's group, in those sums |
| PostHoc.EvictLayer | benchmarks/kv_baselines.py:457-464 | so does every head of a layer |
| PostHoc.EvictOne | benchmarks/kv_baselines.py:442-465 | a layer without keys and values is left alone, heads that do not group are refused |
| PostHoc.EvictLayers | benchmarks/kv_baselines.py:441-466 | so for every layer, in order |
| PostHoc.EvictCache | benchmarks/kv_baselines.py:405-471 | the whole eviction: window size, alignment, selection per head, and exactly when each failure is raised, that no attention came back included |
| Json.TornRecordIsUnbalanced | benchmarks/checkpoint.py:313-314 | a record's text is balanced and no proper non-empty prefix of it is (RFC 8259, sections 4 and 7) |
| Json.DumpsOneLine | benchmarks/checkpoint.py:314 | a record's text never holds a line break, whatever its strings hold |
| Json.RecordText | benchmarks/checkpoint.py:313-314 | a record's fields are separated as json.dumps does |
| Json.FieldText | benchmarks/checkpoint.py:313-314 | so are name and value, and a name of printable characters stands as it is |
| JsonRoundTrip.LoadsDumps | benchmarks/checkpoint.py:265 | reading a written value gives it back, for every value of strings, scalars, lists and objects without repeated names |
| JsonRoundTrip.DumpsInjective | benchmarks/checkpoint.py:314 | no two such values are written alike |
| JsonRoundTrip.AcceptedIsBalanced | benchmarks/checkpoint.py:129-140 | the reader accepts no unbalanced text |
| Log.LoadsIsLawful | benchmarks/checkpoint.py:129-140 | the model's reader obeys the law the store's theorems ask of any reader |
| Log.RepairIdempotent | benchmarks/checkpoint.py:112-148 | repairing twice is repairing once and leaves an empty or newline-terminated file |
| Log.RepairTornAppend | benchmarks/checkpoint.py:112-148 | whatever prefix of an in-flight record landed, earlier records are untouched and it is kept exactly when all of it landed |
| Store.SidecarAccounts | benchmarks/checkpoint.py:123-146 | the repaired file and what the sidecar gained account for every byte: nothing is cut, or what follows the kept lines is in the sidecar |
| Log.CrashSafe | benchmarks/checkpoint.py:112-148 | after every history of openings, appends and crashes the repaired file is exactly the lines of the records that must survive |
| Records.ReadBack | benchmarks/checkpoint.py:291-307 | reading a clean file gives back exactly the records written, in order |
| Records.LinesJoin | benchmarks/checkpoint.py:295-296 | lines hold no break and, each ended by one, are the file |
| Records.StripIs | benchmarks/checkpoint.py:298 | stripping removes the white space at both ends and nothing else |
| Records.SpaceIs | benchmarks/checkpoint.py:298 | which in ASCII is the blank, the line breaks and tabs, and the separators 28 to 31 |
| Records.ReadFailsIff | benchmarks/checkpoint.py:297-306 | reading fails exactly when a line before the last is neither blank nor parses |
| Records.ReadIs | benchmarks/checkpoint.py:297-307 | otherwise what is read are the values of the lines that parse, in order |
| Records.LookupIsLast | benchmarks/checkpoint.py:274-278 | of fields of one name the last is read |
| Records.ReopenReadsKept | benchmarks/checkpoint.py:103-109 | after any history the next opening reads back exactly the surviving records |
| Records.TornReadsAsRepaired | benchmarks/checkpoint.py:297-307 | an unrepaired torn file reads exactly as the repaired one |
| KeyedLog.DoneHas | benchmarks/checkpoint.py:255-279 | a key is done exactly when some record of it carries no error |
| Records.FailedIff | benchmarks/checkpoint.py:276 | a record failed exactly when its error is there and neither null, false, empty nor zero |
| KeyedLog.LatestIsLast | benchmarks/checkpoint.py:281-289 | the latest view holds exactly the keys with a record, each with its last one |
| KeyedLog.LatestAppend | benchmarks/checkpoint.py:281-289 | appended records supersede earlier ones of the same key |
| Store.ResumableJSONL.Open | benchmarks/checkpoint.py:87-219 | a differing strict configuration stops it with nothing touched, then a live writer's lock does; otherwise the lock is claimed, the file repaired and the first configuration recorded |
| Store.ResumableJSONL.OpenReadOnly | benchmarks/checkpoint.py:97-104 | a reader touches nothing |
| Store.ResumableJSONL.RepairTornTail | benchmarks/checkpoint.py:112-148 | the file becomes its repair and what is cut goes to the sidecar |
| Store.ResumableJSONL.Append | benchmarks/checkpoint.py:310-316 | one record, one line, refused when opened for reading |
| Store.ResumableJSONL.Close | benchmarks/checkpoint.py:318-324 | appending ends, and a claimed lock that is still this process's is given up |
| Store.ResumableJSONL.LoadRecords | benchmarks/checkpoint.py:291-307 | all records in order, tolerating a torn last line and nothing worse |
| Store.ResumableJSONL.LoadDone | benchmarks/checkpoint.py:244-279 | exactly the keys with a record that does not count as failed |
| Store.ResumableJSONL.LoadLatest | benchmarks/checkpoint.py:281-289 | exactly the last record of every non-null key |
| Store.AdmittedConfigsAgree | benchmarks/checkpoint.py:164-167 | two sessions admitted under one recorded configuration were configured alike |
| Store.SameConfigIff | benchmarks/checkpoint.py:164-167 | a configuration is admitted exactly when it reads the same as the recorded one for every key there is |
| Store.FilterPending | benchmarks/checkpoint.py:334-342 | the pending items in order and the number skipped |
| Store.PendingExactly | benchmarks/checkpoint.py:334-342 | an item is pending exactly when its key is not done |
| Store.PendingInOrder | benchmarks/checkpoint.py:334-342 | the pending items are those whose key is not done, each place once, in order |
| Store.PendingDistinct | benchmarks/checkpoint.py:334-342 | no pending key repeats when item keys do not |
| Sessions.ProtocolSuccessIsLast | benchmarks/run_longbench_cuda.py:797-934 | in every log the protocol can produce a key has at most one success and nothing after it |
| Sessions.DoneIsLatestOk | benchmarks/checkpoint.py:244-289 | hence the keys skipped on resume are exactly those whose latest record carries no error |
| Sessions.CrashKeepsProtocol | benchmarks/run_longbench_cuda.py:919-934 | a session cut anywhere is still a session |
| Sessions.WorkListIsSession | benchmarks/run_longbench_cuda.py:802-809 | the harness's work list over distinct keys obeys the protocol |
| Sessions.WorkListIff | benchmarks/run_longbench_cuda.py:802-809 | over any log and item list, the harness's records obey the protocol if and only if no pending key repeats |
| Sessions.RepeatedItemSucceedsTwice | benchmarks/run_longbench_cuda.py:806-809 | when a pending key repeats and all items succeed, some key has two successes |
| Harness.RunsAreHistory | benchmarks/checkpoint.py:103-148 | runs that read the store, append records and are cut off at any byte are a legal history of the file, and what must survive it is what runs of the same programs cut between records leave |
| Harness.BytesRefineRecords | benchmarks/checkpoint.py:103-148 | so the next opening reads exactly what some history of kills between records leaves |
| Harness.RecordsHappen | benchmarks/checkpoint.py:310-316 | and every history of kills between records can happen in bytes |
| SessionsOnDisk.KilledRunsKeepProtocol | benchmarks/run_longbench_cuda.py:797-934 | after runs that each append a session, killed anywhere in their bytes, what is read back is a log of the protocol |
| SessionsOnDisk.KilledRunsSkipSuccesses | benchmarks/run_longbench_cuda.py:797-934 | so no key is recorded again after its success, and a key is skipped exactly when its latest record succeeded |
| SessionsOnDisk.WorkResumesIff | benchmarks/run_longbench_cuda.py:802-809 | the harness appends a session to every store if and only if no two items share a key |
| SessionsOnDisk.KillsAreInvisible | benchmarks/run_longbench_cuda.py:797-934 | for items of which those with one key are recorded alike: however often and wherever in its bytes it was killed, a run that ends leaves the latest record of every item that one undisturbed run leaves |
| WriterLock.LockFile.Acquire | benchmarks/checkpoint.py:178-219 | refused exactly by a lock of this boot whose pid tests alive; otherwise the lock is this process's |
| WriterLock.LockFile.Release | benchmarks/checkpoint.py:221-241 | removes this process's lock and no other |
| WriterLock.StepKeepsInv | benchmarks/checkpoint.py:178-241 | every step but a stale close keeps: an open handle belongs to a running process that the lock names, with a reading of this boot |
| WriterLock.SingleWriter | benchmarks/checkpoint.py:178-219 | at most one live writer in every state reached without a stale close, through crashes, reboots and pid reuse |
| WriterLock.BlockedExactly | benchmarks/checkpoint.py:199-213 | an opening is refused exactly by a lock of the current boot; one from before the last boot never blocks |
| WriterLock.CloseIsOwn | benchmarks/checkpoint.py:221-241 | a close removes only its own process's lock and never that of another open store |
| WriterLock.StaleCloseAdmitsTwo | benchmarks/checkpoint.py:221-241 | where a stale handle is closed while the process has the store open again, a second process can open it |
| WriterLock.CloseAdmitsTwoIff | benchmarks/checkpoint.py:221-241 | a close followed by another process opening the store leaves two writers if and only if the close was stale |
| WriterLock.StaleCloseReachable | benchmarks/checkpoint.py:318-324 | a run that reaches a stale close |
| Ladder.RunArm | benchmarks/context_ladder.py:364-448 | the loop appends exactly what the climb specifies |
| Ladder.Run | benchmarks/context_ladder.py:358-449 | one run appends exactly the session |
| LadderVerdicts.ClimbLaw | benchmarks/context_ladder.py:364-448 | every rung of an uninterrupted climb, in measured seconds and tokens: skipped exactly after as many ceilings in a row as the stop rule asks for; a completed point degraded exactly when its seconds per token exceed two and a half times those of the last passing point; otherwise recorded as reported, with the rate in thousandths |
| LadderVerdicts.SessionLaw | benchmarks/context_ladder.py:358-449 | so is every rung of every arm of a session |
| LadderVerdicts.PassingGrowsSlowly | benchmarks/context_ladder.py:427-436 | hence from one passing point to the next, seconds per token grow at most two and a half times |
| LadderProofs.ResumeArm | benchmarks/context_ladder.py:367-384 | where each verdict is the same against the recorded as against the exact rate, a resumed climb appends exactly the clean records that were not done |
| LadderProofs.CutArms | benchmarks/context_ladder.py:358-438 | where verdicts stand and contexts settle up to some context, a resumed session stopped anywhere leaves of any arm, listed once or more, the clean records of some first whole contexts |
| LadderProofs.KilledHolds | benchmarks/context_ladder.py:358-449 | under the same conditions so does any number of killed sessions |
| LadderDoomed.UpperFinished | benchmarks/context_ladder.py:385-388 | a context that is doomed, running out of memory with an error at enough of its listings, ends as skipped whatever was killed and resumed |
| LadderDoomed.Transparent | benchmarks/context_ladder.py:358-449 | where every arm is resumable: kill and restart any number of times, then finish, and the latest record of every point is the uninterrupted run's |
| LadderTransparency.HideNext | benchmarks/context_ladder.py:367-388 | a kill after which the store counts one more doomed context as done, with a skip as its latest record |
| LadderTransparency.ChainBreaks | benchmarks/context_ladder.py:367-388 | hiding doomed contexts one after the other, some restart shows a context that is not doomed |
| LadderTransparency.TransparentIff | benchmarks/context_ladder.py:358-449 | for all arms, all sorted contexts, any stop rule and every measurement: restarting is transparent if and only if every arm is resumable, that is, up to some context verdicts stand and contexts settle, and from there on, if anything is left, the arm is listed once and every context is doomed |
| LadderTransparency.DistinctIff | benchmarks/context_ladder.py:365-388 | with distinct contexts: if and only if every verdict is the same against the recorded as against the exact rate |
| LadderLimits.ExactVerdictsStand | benchmarks/context_ladder.py:427-436 | when every measured rate is a non-zero number of thousandths all verdicts stand |
| LadderLimits.RoundingBreaksTransparency | benchmarks/context_ladder.py:427-436 | a two-rung ladder where it fails |
| LadderLimits.VerdictFlips | benchmarks/context_ladder.py:427-436 | a verdict that does not stand is turned by a kill right before its rung |
| LadderLimits.SkipIsLost | benchmarks/context_ladder.py:367-388 | a context whose launch passed and whose next listing is skipped keeps the launch's record after a kill between the two |
| LadderLimits.TwiceLaunched | benchmarks/context_ladder.py:363-388 | for an arm listed twice, a context left half launched shows even if its launches fail |
| LadderRepeats.ExactTransparentIff | benchmarks/context_ladder.py:367-388 | for any stop rule and any arms: every oracle with exactly recorded rates is restart-transparent if and only if no context's listings can straddle the stop rule |
| LadderRepeats.StraddledOnce | benchmarks/context_ladder.py:385-388 | under the default stop rule of one ceiling that is, no context is listed twice |
| LadderRepeats.DistinctNeverStraddles | benchmarks/context_ladder.py:385-388 | distinct contexts straddle no stop rule |
| LadderRepeats.RepeatedContextHidesCeiling | benchmarks/context_ladder.py:367-388 | for any stop rule and a context that straddles it: a kill after which the resumed run launches the next larger context, which the uninterrupted run skips |
| LadderLimits.CeilingsStop | benchmarks/context_ladder.py:385-388 | as many ceilings in a row as the stop rule asks for end the arm |
| LadderLimits.SkippedForGood | benchmarks/context_ladder.py:385-388 | once skipped, every larger context is skipped |
| LadderLimits.ResumedLaunchesAreClean | benchmarks/context_ladder.py:369-388 | where verdicts stand and contexts settle, a session after any kills launches only points the uninterrupted run launches, and records them alike |
| LadderCeiling.LaunchedIff | benchmarks/context_ladder.py:367-388 | a rung that is not done is launched exactly while fewer ceilings than the stop rule asks for stand below it |
| LadderCeiling.NeverAboveCeiling | benchmarks/context_ladder.py:367-448 | after any kills, for every oracle and every sorted context list: at every launch, fewer consecutive ceilings than the stop rule asks for stand in the store's latest records of the arm's lower contexts |
| LadderOnDisk.RunsAreKills | benchmarks/context_ladder.py:355-438 | the ladder as a program over the store's records, cut between records, leaves what its own killed sessions leave |
| LadderOnDisk.OnDiskIff | benchmarks/context_ladder.py:355-449 | restarts are transparent over the bytes of the store, killed anywhere in them, exactly when they are record by record |
| LadderOnDisk.TransparentOnDiskIff | benchmarks/context_ladder.py:355-449 | hence if and only if every arm is resumable |
| LadderCodec.LadderCodecIsLawful | benchmarks/context_ladder.py:367-438 | the record of a point, with its key, its rate in decimals and its error if any, is one the store can hold and reads back as the point |
| LadderCodec.KeyTextInjective | benchmarks/context_ladder.py:367 | no two points share the key text arm@ctx |
| LadderCodec.DoneAgrees | benchmarks/context_ladder.py:357-368 | a key text counts as done in the store exactly when its point does in the ladder |
| LadderCodec.LatestAgrees | benchmarks/context_ladder.py:361-375 | the latest record of a key text is the written latest record of its point |
| Campaign.RunStep | benchmarks/campaign_chunked_eviction.py:274-298 | the attempt loop produces exactly the specified saves, starts and outcome |
| Campaign.RunCampaign | benchmarks/campaign_chunked_eviction.py:266-303 | so does one invocation |
| CampaignOutcomes.StepOutcome | benchmarks/campaign_chunked_eviction.py:274-298 | a step's attempts end with the first that exits 0 with no item in error, or with the last allowed, one for a gate or without a store and 1 + retries otherwise; it ends as done after such an attempt, as done_with_errors if it has a store and exited 0, else as failed, which stops the run if it is a gate |
| CampaignOutcomes.StartsIff | benchmarks/campaign_chunked_eviction.py:266-302 | an invocation starts a step exactly when it is not finished, is selected or a gate, and no gate before it ends as failed |
| CampaignSafety.HistoryGood | benchmarks/campaign_chunked_eviction.py:158-171 | every event of every history of killed invocations is allowed |
| CampaignSafety.StartsBehindGates | benchmarks/campaign_chunked_eviction.py:268-302 | a long step starts only when every gate's saved status is done |
| CampaignSafety.FinishedNeverRestarts | benchmarks/campaign_chunked_eviction.py:271-273 | a step saved as done, with errors or without, never starts again |
| CampaignOutcomes.DoneEarned | benchmarks/campaign_chunked_eviction.py:284-298 | over all killed histories: a step is newly saved as done only right after its own return with exit code 0 and, if it has a store, no item in error |
| CampaignOutcomes.CleanIsDone | benchmarks/campaign_chunked_eviction.py:284-298 | and right after such a return it is saved as done, unless the run was killed there |
| CampaignSafety.ErrorsAfterAllAttempts | benchmarks/campaign_chunked_eviction.py:274-298 | any step is first saved as done_with_errors only right after all the attempts one run allows it, a gate one and any other 1 + retries, the last exiting 0 with audit errors |
| CampaignGates.GatesHoldIff | benchmarks/campaign_chunked_eviction.py:268-302 | the gate rule holds over all histories exactly when every gate precedes every long step and has no store |
| CampaignGates.GateSlips | benchmarks/campaign_chunked_eviction.py:286-302 | for every other step list, a run in which a long step starts past a gate that is not done |
| CampaignGates.AttemptsHoldIff | benchmarks/campaign_chunked_eviction.py:274-298 | that every step gets 1 + retries attempts before its errors are accepted holds over all histories exactly when no gate has a store |
| CampaignGates.GateTriedOnce | benchmarks/campaign_chunked_eviction.py:286-291 | for a gate with a store, a run that settles it after one attempt of two |
| Lcs.LcsLength | ACTIVE_RUNTIME/run_longbench.py:147-159 | the one-row program returns the length of a longest common subsequence |
| Lcs.Witness | ACTIVE_RUNTIME/run_longbench.py:147-159 | a common subsequence of that length exists |
| Lcs.NoneLonger | ACTIVE_RUNTIME/run_longbench.py:147-159 | none is longer |
| Lcs.TableIsLongest | ACTIVE_RUNTIME/run_longbench.py:147-159 | both, for the whole sequences |
| Lcs.Symmetric | ACTIVE_RUNTIME/run_longbench.py:147-159 | the length does not depend on the order of the arguments |
| Lcs.WholeIffEqual | ACTIVE_RUNTIME/run_longbench.py:147-159 | it is the length of both exactly when they are equal |
| Scoring.SplitJoin | ACTIVE_RUNTIME/run_longbench.py:119 | splitting undoes joining words with single spaces |
| Scoring.SplitFirst | ACTIVE_RUNTIME/run_longbench.py:119 | a word and what a white space starts behind it split into that word and the split of the rest |
| Scoring.SplitSkips | ACTIVE_RUNTIME/run_longbench.py:119 | white space in front changes nothing: with that every split is determined |
| Scoring.NormalizeTokens | ACTIVE_RUNTIME/run_longbench.py:115-119 | normalised texts are equal exactly when their token lists are |
| Scoring.MetricsAreRatios | ACTIVE_RUNTIME/run_longbench.py:128-169 | on non-empty token lists both metrics are 2*common/(len p+len g) |
| Scoring.CommonIsLargest | ACTIVE_RUNTIME/run_longbench.py:133-134 | the common count is the size of the largest multiset of tokens in both lists |
| Scoring.MetricsTimesTokens | ACTIVE_RUNTIME/run_longbench.py:128-169 | times the tokens of both lists, F1 is twice the common count and Rouge-L twice the common subsequence |
| Scoring.LcsWithinCommon | ACTIVE_RUNTIME/run_longbench.py:133-166 | a common subsequence is contained in the multiset intersection |
| Scoring.SingleOrder | ACTIVE_RUNTIME/run_longbench.py:128-169 | 0 <= Rouge-L <= F1 <= 1 for one answer |
| Scoring.SingleSymmetric | ACTIVE_RUNTIME/run_longbench.py:128-169 | both metrics are symmetric |
| Scoring.SingleOnes | ACTIVE_RUNTIME/run_longbench.py:128-169 | Rouge-L is 1 exactly on equal non-empty lists, F1 exactly on rearrangements |
| Scoring.SingleZeros | ACTIVE_RUNTIME/run_longbench.py:131-169 | Rouge-L is 0 exactly when no token is shared; so is F1, save on two empty lists |
| Scoring.RougeNeverExceedsF1 | ACTIVE_RUNTIME/run_longbench.py:141-175 | 0 <= Rouge-L <= F1 <= 1 for every prediction and answer list |
| Scoring.BestOverAnswers | ACTIVE_RUNTIME/run_longbench.py:121-175 | F1 and Rouge-L of an answer list bound every answer's and are attained by one, zero without answers; exact match is 1 exactly when some answer normalises to the prediction, else 0 |
| Scoring.ExactMatchForcesF1 | ACTIVE_RUNTIME/run_longbench.py:121-145 | an exact match forces F1 to 1 |
| AllocTrace.LiveAtPeak | benchmarks/diag_granite_snapshot.py:88-115 | the peak is the maximum over all prefixes, the snapshot the live set at the first prefix reaching it, and the buckets partition it by site; on a trace that never allocates on a live block the peak is the largest number of live bytes and the buckets sum to it |
| AllocTrace.Bucketed | benchmarks/diag_granite_snapshot.py:109-112 | one bucket per site present, with that site's bytes and number of blocks |
| AllocTrace.LiveIs | benchmarks/diag_granite_snapshot.py:97-108 | an address is live with a block exactly when the last event that touched it allocated that block |
| AllocTrace.RunningIs | benchmarks/diag_granite_snapshot.py:97-108 | the running total is the live total plus the bytes of live blocks allocated over |
| AllocTrace.RunningIsLiveIff | benchmarks/diag_granite_snapshot.py:97-108 | it is the live total at every event exactly when no allocation lands on a live non-empty block |
| AllocTrace.BucketsAddUp | benchmarks/diag_granite_snapshot.py:109-112 | bucket bytes and counts sum to the snapshot |
| PromptEcho.HeadIsLongest | benchmarks/run_longbench_cuda.py:259-262 | prefix matching is downward closed, and the common head is the longest match |
| PromptEcho.LongestHead | benchmarks/run_longbench_cuda.py:256-262 | the binary search ends with the length of the longest common prefix |
| PromptEcho.StripPromptEcho | benchmarks/run_longbench_cuda.py:248-294 | all branches of the stripper as specified |
| PromptEcho.EchoUndone | benchmarks/run_longbench_cuda.py:248-255 | stripping undoes the echo exactly when the completion does not open with white space |
| PromptEcho.DivergingEcho | benchmarks/run_longbench_cuda.py:256-291 | an echo that leaves the prompt is cut where it leaves it when more than 200 characters are shared, else kept whole; only the token bound shortens it further |
| PromptEcho.MatchedUnfoundIff | benchmarks/run_longbench_cuda.py:243-266 | exactly when the match flag is set though the prompt was not found |
| PromptEcho.SuffixUnlessCut | benchmarks/run_longbench_cuda.py:248-266 | unless the bound cuts, the result is a suffix of the text |
| PromptEcho.CutKeepsLast | benchmarks/run_longbench_cuda.py:282-291 | when the bound cuts, what comes back is what the last budget tokens of the text decode to |
| PromptEcho.CutDropsFirst | benchmarks/run_longbench_cuda.py:282-291 | a negative bound drops that many tokens from the front instead |
| PromptEcho.BoundHoldsIff | benchmarks/run_longbench_cuda.py:254-293 | where cutting suffices, the bound on generated tokens holds of all texts if and only if no completion is over it |
| PromptEcho.EchoExceedsBudget | benchmarks/run_longbench_cuda.py:254-255 | a text whose result exceeds the budget |

## Left out

- fp16/fp32 rounding, the `.to(dt)` casts of scales and zeros, and NaN or infinite tensors: all arithmetic is over
  reals.
- Batch and (outside `TiledForward.Attend` and the per-head eviction) head axes: independent copies of what is
  modelled.
- The fused attention operator of a tile is taken by its contract: softmax output plus log-sum-exp of the tile.
- Per-head masks, additive float masks, sliding windows, soft caps and dropout in the tiled read.
- `snapkv_chunked_q`, `apply_kivi`, `apply_int8_kv`, the key-norm proxy and the byte accounting: the same steps
  again, or single formulas.
- Keys and values of deeper layers under eviction: they depend on what earlier chunks attended, so the eviction
  results are about positions and scores.
- The store's theorems take any JSON parser that gives back every record `Json.Dumps` writes and accepts no text that
  opens as an object and is not balanced; `JsonReader.Loads` is one. It reads a `\u` escape as one UTF-16 unit, without
  pairing surrogates. A number stands as the text it is written with.
- Characters stand for bytes of the UTF-8 encoding; decoding errors, `\r` as a line break, white space outside ASCII, and
  lines holding something other than an object are not modelled.
- A reader opened read-only on a file that is being repaired, and missing files as distinct from empty ones.
- Files of the store: `fsync` and `os.replace` are taken as atomic and durable.
- WriterLock.LockFile.Acquire: one atomic step from reading the lock to writing it; an unreadable or hand-edited lock
  file, and the campaign's own lock file, are not modelled.
- Numbers in a record are compared as texts, so a key `1` and a key `1.0` count as different.
- LadderCodec.LadderCodecIsLawful: rates of 10^16 seconds and more, which Python writes with an exponent, are written
  in full.
- SessionsOnDisk.KillsAreInvisible: an item's outcome does not change between runs; the other theorems of that module
  allow runs of different programs.
- Ladder fields that do not steer the loop (peak memory, standard error tails, the ratio of a degraded point), and
  the subprocess that produces a point.
- Campaign step fields other than the status, log files, and the sleep inhibition.
- Lower-casing and the removal of punctuation and articles are one parameter of `Scoring`.
- AllocTrace.LiveAtPeak: buckets before they are sorted and cut to the largest ones and scaled to gigabytes; sizes
  are not negative.
- The resume loop of `benchmarks/bench_systems_cuda.py`: the ladder with less state.
- Model loading, prompt building, plotting and reports.
