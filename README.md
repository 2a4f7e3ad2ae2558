# LunaVox text-to-semantic core, modelled in Dafny

LunaVox turns text into speech with four ONNX graphs: an encoder, a
first-stage decoder, a stage decoder that runs autoregressively, and a
vocoder. This project models the part of LunaVox that drives those graphs,
and proves properties of that model.

`LunaVoxEngine.t2s_cpu` is the decoder loop. It does the following:
- It resolves the first-stage outputs by name, falling back to position.
- It collects per-layer key/value caches, ordered by the layer number in their names.
- It splits aggregated caches into per-layer slices when the stage decoder declares per-layer inputs.
- It runs at most 500 stage steps. Each step reads the cancel flag, builds the feed from the declared input names, unpacks the outputs with their defaults, updates the caches and takes a three-tier end-of-sequence decision.
- Finally it rewrites and slices the token row.

`LunaVoxEngine.tts` sits around the loop. It does the following:
- It dispatches on language to build the text's phoneme ids and BERT features.
- It falls back to zero reference features.
- It reads the cancel flag again after decoding.
- It scrubs the tokens at the first sentinel.
- It makes one vocoder run.

`ReferenceAudio` caches one prepared reference voice per file path:
- A cache hit returns the same instance and refreshes its text when the text changed.
- An `_initialized` guard computes the audio fields once.
- `_looks_english` is a counting heuristic.

The modules:

- `Wrappers` holds `Option` and `Outcome`. `Outcome` separates a returned value, a returned `None` and an uncaught exception.
- `Tensors` holds arrays as a shape plus row-major data, with the numpy operations the core uses:
  - `np.split` along axis 0;
  - `flat[0]` and `flat[-1]`;
  - `argmax` over `[..., -1, :]`;
  - `y[0, -1] = 0`, `y[:, -idx:]` and `expand_dims`;
  - `np.where(t >= 1024)[-1][0]` and `t[..., :c]`.
- `Names` holds `str.startswith`, `name.split("_layer_")[-1]` and Python's `int()`.
- `Sessions` models a graph as its declared input and output names plus a `run` function from a named feed to output arrays.
- `LayerOrder` holds the stable sort by layer number.
- `FirstStage`, `StageStep` and `Decoder` hold `t2s_cpu` and its inner helpers.
- `Frontend` holds the text front end's collaborators.
- `RefAudio` holds `ReferenceAudio` and its cache.
- `Engine` holds `tts`.

Modelling choices:

- **Graphs.** A graph's output is any function of its feed. Every property holds for every graph. The first-stage decoder is required to satisfy the ONNX Runtime contract (`Sessions.Conforms`): a successful run returns one array per declared output. A stage-decoder run that returns fewer arrays than it declares makes the step raise, and surplus arrays are ignored. The encoder and vocoder are not required to.
- **Cancel flag.** `stop_event` is the sequence of values read at its checkpoints: `cancelAt(k)` at the top of step k, and `afterDecode` after decoding.
- **Sentinel scrub.** `eos_indices[-1][0]` is the last-axis coordinate of the *first* sentinel in C order. On `[1, 1, n]` tokens the scrub therefore truncates before the earliest sentinel, not the latest.
- **Cancellation timing.** The flag is never read before the encoder runs.
- **Loop index.** When the loop runs to its end, `idx` is 499. When `idx` is 0, `y[:, -0:]` keeps all of `y`.

## Model

| member | source | states |
|---|---|---|
| Tensors.Split0 | src/lunavox_tts/Core/Inference.py:150-157 | `np.split(agg, n, axis=0)` succeeds iff there is an axis 0 and its length divides by n; it gives n parts, each of shape `[d0/n] + rest` |
| Tensors.SplitJoin | src/lunavox_tts/Core/Inference.py:151 | the n slices laid end to end are exactly the aggregated tensor's data |
| Tensors.Argmax | src/lunavox_tts/Core/Inference.py:245 | `np.argmax` returns a position holding the maximum, and no earlier position holds it |
| Tensors.LastPositionRow | src/lunavox_tts/Core/Inference.py:244 | `logits[..., -1, :]` exists iff there are two or more axes and the position axis is non-empty; its length is the product of the leading axes times the last axis; which elements it holds is stated by `LastPositionRowAt` and `LastPositionRowOfBatch` |
| Tensors.GatherAt | src/lunavox_tts/Core/Inference.py:244 | gathering columns from..to of each of `count` rows puts row b's column from+v at position b*(to-from)+v |
| Tensors.LastPositionRowIsGather | src/lunavox_tts/Core/Inference.py:244 | on shape `lead + [T, V]`, `logits[..., -1, :]` is the gather of the last V-wide block of each T*V-wide row |
| Tensors.LastPositionRowAt | src/lunavox_tts/Core/Inference.py:244 | on shape `lead + [T, V]`, element b*V+v of `logits[..., -1, :]` is element (b*T+T-1)*V+v of the array: the last position of batch row b |
| Tensors.LastPositionRowOfBatch | src/lunavox_tts/Core/Inference.py:244 | on shape `[1, T, V]` with T > 0, `logits[..., -1, :]` is exactly the data from (T-1)*V to T*V |
| Tensors.ZeroLastOfFirstRow | src/lunavox_tts/Core/Inference.py:260 | `y[0, -1] = 0` succeeds iff y has two or more axes and both leading axes are non-empty; the shape is kept, the last column of row 0 becomes 0 and every other element is unchanged |
| Tensors.KeptColumns | src/lunavox_tts/Core/Inference.py:261 | `y[:, -idx:]` keeps the last min(idx, columns) columns, and all columns when idx is 0 |
| Tensors.TrailingColumns | src/lunavox_tts/Core/Inference.py:261 | the slice keeps every axis except axis 1, which shrinks to the kept column count |
| Tensors.ExpandDims0 | src/lunavox_tts/Core/Inference.py:69 | `np.expand_dims(t, 0)` adds a leading axis of size 1 and keeps the data |
| Tensors.FirstSentinelPos | src/lunavox_tts/Core/Inference.py:64-66 | gives the first position holding a value of at least 1024, with nothing at or above 1024 before it; None iff there is no such value |
| Tensors.FirstSentinelColumn | src/lunavox_tts/Core/Inference.py:64-66 | `np.where(t >= 1024)[-1][0]` is a valid last-axis index; it is absent iff no element reaches 1024 |
| Tensors.TruncateLastAxis | src/lunavox_tts/Core/Inference.py:67 | `t[..., :c]` keeps the leading axes and makes the last axis c long |
| Names.FindFrom | src/lunavox_tts/Core/Inference.py:118 | gives the first occurrence of the separator at or after a position, or proves there is none |
| Names.LastPiece | src/lunavox_tts/Core/Inference.py:118 | `s.split(sep)[-1]` is no longer than s and contains no separator |
| Names.ParseInt | src/lunavox_tts/Core/Inference.py:118 | Python's `int(s)`, None where it raises; `ParseIntOfString`, `ParseIntNegative` and `ParseIntBlank` state its behaviour |
| Names.LastPieceIsSuffix | src/lunavox_tts/Core/Inference.py:118 | `s.split(sep)[-1]` is a suffix of s |
| Names.NoEarlySeparator | src/lunavox_tts/Core/Inference.py:118 | the four cache prefixes contain `_layer_` only at their end, so splitting on it leaves exactly the layer number |
| Names.ParseIntOfString | src/lunavox_tts/Core/Inference.py:118 | `int(str(n)) == n` for every natural number n |
| Names.ParseIntNegative | src/lunavox_tts/Core/Inference.py:118 | `int("-" + str(n)) == -n` for every natural number n |
| Names.ParseIntBlank | src/lunavox_tts/Core/Inference.py:118 | a blank or empty string does not parse: `int()` raises |
| Names.LayerIndex | src/lunavox_tts/Core/Inference.py:118 | `int(name.split("_layer_")[-1])`, None where it raises; `LayerIndexOfName` states that it recovers n from every cache name with layer n |
| Names.LayerIndexOfName | src/lunavox_tts/Core/Inference.py:118 | `int(name.split("_layer_")[-1])` recovers n from `present_k_layer_<n>`, `present_v_layer_<n>`, `past_k_layer_<n>` and `past_v_layer_<n>` |
| Sessions.CountPrefixed | src/lunavox_tts/Core/Inference.py:144-145 | the count of names with a prefix never exceeds the number of names |
| LayerOrder.InsertByLayer | src/lunavox_tts/Core/Inference.py:122 | one insertion step of the sort adds exactly the inserted pair to the multiset of pairs |
| LayerOrder.SortByLayerSorted | src/lunavox_tts/Core/Inference.py:122 | `sort(key=lambda x: x[0])` yields pairs ordered by layer number |
| LayerOrder.SortByLayerPermutes | src/lunavox_tts/Core/Inference.py:122 | the sort's result is a permutation of its input |
| LayerOrder.SortByLayerStable | src/lunavox_tts/Core/Inference.py:122 | the sort is stable: pairs with equal layer numbers keep their relative order |
| LayerOrder.Arrays | src/lunavox_tts/Core/Inference.py:123 | `[arr for _, arr in layers]` keeps position i's array at position i |
| FirstStage.IndexOf | src/lunavox_tts/Core/Inference.py:107 | `list.index` gives the first position holding the name |
| FirstStage.FsGet | src/lunavox_tts/Core/Inference.py:105-110 | `_fs_get` gives the output at the name's first declaration if the name is declared, else output i if i is in range, else None |
| FirstStage.TaggedLayersCount | src/lunavox_tts/Core/Inference.py:115-121 | the scan gathers exactly one pair per output whose name starts with the prefix |
| FirstStage.TaggedLayersSound | src/lunavox_tts/Core/Inference.py:115-121 | every gathered pair is an output with the prefix, filed under its parsed layer number or its position |
| FirstStage.TaggedLayersComplete | src/lunavox_tts/Core/Inference.py:115-121 | every output with the prefix is gathered, under its parsed layer number or its position |
| FirstStage.CollectLayers | src/lunavox_tts/Core/Inference.py:113-123 | `_collect_layers` returns the prefixed outputs stably sorted by layer tag, as many as there are prefixed names |
| FirstStage.DeclaredLayers | src/lunavox_tts/Core/Inference.py:144-146 | `n_layers` is the larger of the `past_k_layer_` and `past_v_layer_` input counts |
| FirstStage.SplitIfExpected | src/lunavox_tts/Core/Inference.py:148-158 | with n > 0, no per-layer list and an aggregated tensor, the list becomes n equal axis-0 slices that join back to the tensor, or None if the split fails; otherwise the list is unchanged |
| StageStep.StageFeedByName | src/lunavox_tts/Core/Inference.py:160-187 | only declared names are fed; `iy` and `iy_emb` always are; `ix_example`, `ik` and `iv` are fed iff their value exists; `past_*_layer_L` gets slice L iff L parses and 0 <= L < len(slices), and is omitted otherwise; any other name is never fed |
| StageStep.FeedEntry | src/lunavox_tts/Core/Inference.py:162-186 | what `_build_stage_feed` puts under one declared name; `StageFeedByName` states it name by name |
| StageStep.StageFeed | src/lunavox_tts/Core/Inference.py:160-187 | the feed `_build_stage_feed` returns: exactly the declared names that receive something; `StageFeedByName` states its entries |
| StageStep.BuildStageFeed | src/lunavox_tts/Core/Inference.py:160-187 | the feed the loop fills is the feed `StageFeedByName` describes |
| StageStep.Put | src/lunavox_tts/Core/Inference.py:190 | a dict assignment keeps the entry count or adds one |
| StageStep.LookupPut | src/lunavox_tts/Core/Inference.py:190 | after `d[k] = v`, looking up k gives v, and every other key is unaffected |
| StageStep.LastIndexOf | src/lunavox_tts/Core/Inference.py:190 | gives the last position holding a name |
| StageStep.OutMapLookup | src/lunavox_tts/Core/Inference.py:190 | the dict comprehension maps each declared output name to the output at its last declaration |
| StageStep.OutMapDistinct | src/lunavox_tts/Core/Inference.py:190 | the dict comprehension holds each key once |
| StageStep.UnpackByName | src/lunavox_tts/Core/Inference.py:191-194 | `y` is the output named "y", else the first output, else None; `y_emb` is the named output, else the previous embedding; `k`, `v`, `logits` and `samples` are their named outputs, or None |
| StageStep.UnpackLayersPresent | src/lunavox_tts/Core/Inference.py:196-212 | each per-layer list is present iff some declared output name carries its prefix |
| StageStep.PresentTagsNonEmpty | src/lunavox_tts/Core/Inference.py:198-211 | the gathered list is non-empty iff some dict key qualifies |
| StageStep.IsPresentByPrefix | src/lunavox_tts/Core/Inference.py:199-205 | no name carries both cache prefixes, so the k-first `if`/`elif` files a name under the list its prefix names |
| StageStep.PresentTagsCount | src/lunavox_tts/Core/Inference.py:198-210 | the scan gathers one pair per dict key with the list's prefix |
| StageStep.PresentTagsSound | src/lunavox_tts/Core/Inference.py:198-210 | every gathered pair is a qualifying dict entry, filed under its parsed layer number or 0 where `int()` raises |
| StageStep.PresentTagsComplete | src/lunavox_tts/Core/Inference.py:198-210 | every qualifying dict entry is gathered, filed under its parsed layer number or 0 |
| StageStep.UnpackLayersCount | src/lunavox_tts/Core/Inference.py:190-212 | a per-layer list has one array per distinct declared output name with its prefix |
| StageStep.UnpackLayersSound | src/lunavox_tts/Core/Inference.py:190-212 | every gathered pair is a declared name with the prefix, carrying the output at that name's last declaration and filed under its layer number or 0 |
| StageStep.UnpackLayersComplete | src/lunavox_tts/Core/Inference.py:190-212 | every declared name with the prefix contributes the output at its last declaration, filed under its layer number or 0 |
| StageStep.UnpackLayersContent | src/lunavox_tts/Core/Inference.py:189-212 | each per-layer list is None iff no pair is gathered, and otherwise the gathered pairs' arrays after a stable sort by layer number: one per distinct declared name with the prefix, each the output at its last declaration, filed under the parsed layer number or 0; the sorted pairs are ordered, a permutation, and keep dict order within a layer |
| StageStep.UnpackStageOutputs | src/lunavox_tts/Core/Inference.py:189-215 | the scan over the dict produces the unpacked outputs that `UnpackByName`, `UnpackLayersPresent` and `UnpackLayersContent` describe |
| StageStep.UnpackSpec | src/lunavox_tts/Core/Inference.py:189-215 | what `_unpack_stage_outputs` returns; `UnpackByName` states the named components, and `UnpackLayersPresent` and `UnpackLayersContent` state the per-layer lists |
| StageStep.UpdateCaches | src/lunavox_tts/Core/Inference.py:226-231 | if both new per-layer lists came back, they replace the caches and both aggregated caches become None; otherwise both per-layer lists stay exactly as they were, and each aggregated cache takes its new value if present and keeps the old one if not; a per-layer cache is never lost |
| StageStep.StopDecision | src/lunavox_tts/Core/Inference.py:233-255 | the three-tier end-of-sequence test; `StopDecidedByOneTier` and `LogitsTierArgmax` state which tier decides and how |
| StageStep.StopDecidedByOneTier | src/lunavox_tts/Core/Inference.py:233-255 | exactly one tier decides: with `samples`, stop iff its first element is at least 1024; else with `logits`, stop iff the last-position argmax is at least 1024; else stop iff y's last element is at least 1024; a failed read means "no stop" and does not fall through |
| StageStep.LogitsTierArgmax | src/lunavox_tts/Core/Inference.py:243-247 | the logits tier stops iff the first position of the maximum score is at or beyond 1024 |
| Frontend.PhonemeRow | src/lunavox_tts/Core/Inference.py:30 | `np.array([ids])` has shape [1, len(ids)] and holds the ids |
| Frontend.ZeroBert | src/lunavox_tts/Core/Inference.py:31 | `np.zeros((n, BERT_FEATURE_DIM))` has n rows of 1024 zeros |
| Decoder.NonEmpty | src/lunavox_tts/Core/Inference.py:132-135 | an empty collected list becomes None, and a non-empty one is kept as it is |
| Decoder.CollectedCount | src/lunavox_tts/Core/Inference.py:113-123 | `_collect_layers(prefix)` returns one array per output whose name carries the prefix |
| Decoder.ReconciledLayers | src/lunavox_tts/Core/Inference.py:130-158 | a per-layer cache starts as the collected arrays if there are any; else, with n > 0 declared per-layer inputs and an aggregated tensor, as its n axis-0 slices (None iff the split raises), which join back to it; else as None |
| Decoder.InitialState | src/lunavox_tts/Core/Inference.py:125-158 | the decoder's starting state; `InitialCaches` states its caches |
| Decoder.InitialCaches | src/lunavox_tts/Core/Inference.py:125-158 | the starting aggregated caches are `k` and `v` resolved by name or position; each per-layer cache is reconciled as `ReconciledLayers` states, has one array per prefixed output when there are any, and otherwise joins back to the aggregated cache |
| Decoder.Step | src/lunavox_tts/Core/Inference.py:222-255 | one pass of the loop body; a successful pass keeps y when the stage declares an output, keeps `y_emb` once it exists, and never drops a per-layer cache |
| Decoder.Loop | src/lunavox_tts/Core/Inference.py:217-258 | the loop ends within 500 steps; a cancel ending is at the first step whose flag read is set, and the decoder never runs at or after it; a crash or finish happens only at steps whose flag read was clear; the stage runs at most 500 times |
| Decoder.LoopTrajectory | src/lunavox_tts/Core/Inference.py:217-258 | along the actual sequence of states: a cancel happens at a state the steps reach; a crash happens at the first reached state whose step raises; a finish happens at the reached state whose step fires the stop test, or at step 499, and returns that step's state |
| Decoder.FinalTokens | src/lunavox_tts/Core/Inference.py:260-261 | the result exists iff y exists, has two or more axes and both leading axes are non-empty; it has shape `[1, d0, kept columns] + rest` and is never None |
| Decoder.ZeroLastOfRow | src/lunavox_tts/Core/Inference.py:260 | on a non-empty `[1, n]` row, `y[0, -1] = 0` keeps the shape and zeroes only the last token |
| Decoder.TrailingOfRow | src/lunavox_tts/Core/Inference.py:261 | on a `[1, n]` row, `y[:, -idx:]` has shape `[1, m]` and holds the last m tokens |
| Decoder.FinalTokensOfRow | src/lunavox_tts/Core/Inference.py:260-261 | for a `[1, n]` row, the result is `[1, 1, m]` with m = min(idx, n), or n when idx is 0, holding the last m tokens with the final one set to 0 |
| Decoder.T2SSpec | src/lunavox_tts/Core/Inference.py:76-261 | `t2s_cpu` returns None only if the flag was read set at some step's top; a returned tensor has a leading axis of size 1 and three or more axes; a failure before the loop raises |
| Decoder.StageRunsBounded | src/lunavox_tts/Core/Inference.py:218-223 | the stage runs at most 500 times; on None it ran exactly once per step before the first set flag read |
| Decoder.EncoderBeforeFlag | src/lunavox_tts/Core/Inference.py:88-98 | there is no flag check before the encoder: a raising encoder makes `t2s_cpu` raise whatever the flag says |
| Decoder.PrepareState | src/lunavox_tts/Core/Inference.py:125-158 | the first-stage outputs are resolved, collected and split into the decoder's starting state |
| Decoder.DecodeStep | src/lunavox_tts/Core/Inference.py:222-255 | one step feeds, runs, unpacks, updates the caches and takes the stop decision, as `Step` defines |
| Decoder.LoopStep | src/lunavox_tts/Core/Inference.py:218-258 | one iteration of the loop body either ends the loop with the ending `Loop` defines from this step, having run the stage as often as `StageRuns` counts, or continues it at the next step with the same ending and one more stage run counted |
| Decoder.RunSteps | src/lunavox_tts/Core/Inference.py:217-258 | the imperative loop's ending is the one `Loop` defines, and its counter of stage runs, incremented at each run, equals `StageRuns` of that ending |
| Decoder.T2S | src/lunavox_tts/Core/Inference.py:76-261 | `t2s_cpu`'s outcome is the one `T2SSpec` defines, and the stage runs it counts, one per executed step, equal `T2SStageRuns` |
| RefAudio.CountsAppend | src/lunavox_tts/Audio/ReferenceAudio.py:74-75 | both character counts add up over concatenation |
| RefAudio.NeutralCountsNothing | src/lunavox_tts/Audio/ReferenceAudio.py:74-75 | ASCII non-letters and whitespace count toward neither side |
| RefAudio.NeutralTextIgnored | src/lunavox_tts/Audio/ReferenceAudio.py:72-76 | adding digits, punctuation or spaces on either side never changes `_looks_english` |
| RefAudio.AsciiTextLooksEnglish | src/lunavox_tts/Audio/ReferenceAudio.py:72-76 | all-ASCII text containing a letter looks English |
| RefAudio.NoLettersNotEnglish | src/lunavox_tts/Audio/ReferenceAudio.py:72-76 | text without ASCII letters never looks English |
| RefAudio.LooksEnglish | src/lunavox_tts/Audio/ReferenceAudio.py:72-76 | `_looks_english`; `CountsAppend`, `NeutralTextIgnored`, `AsciiTextLooksEnglish` and `NoLettersNotEnglish` state its behaviour |
| RefAudio.HintDispatch | src/lunavox_tts/Audio/ReferenceAudio.py:58-61 | 'en' always uses English G2P; 'auto' uses it iff the text looks English, so an ASCII sentence does and text without ASCII letters does not; every other hint, 'zh' included, uses Japanese G2P |
| RefAudio.Phonemes | src/lunavox_tts/Audio/ReferenceAudio.py:58-61 | the G2P dispatch of `set_text`; `HintDispatch` states which G2P each hint uses |
| RefAudio.ReferenceAudio.Blank | src/lunavox_tts/Audio/ReferenceAudio.py:25 | `super().__new__` gives an instance with no field set and not initialised |
| RefAudio.ReferenceAudio.SetText | src/lunavox_tts/Audio/ReferenceAudio.py:55-64 | `set_text` sets the text, a [1, N] phoneme row from the dispatched G2P, and an all-zero N x 1024 BERT matrix; the audio fields and the guard are untouched |
| RefAudio.ReferenceAudio.Init | src/lunavox_tts/Audio/ReferenceAudio.py:29-53 | an initialised instance is left unchanged; otherwise the text, the phoneme row from the dispatched G2P and the zero BERT are set, then the audio is loaded and embedded, and the instance is marked initialised iff both succeed; a failed load leaves `audio_32k` as it was, a successful one sets it even when embedding then fails, and a failure leaves `ssl_content` as it was |
| RefAudio.CapacityDefault | src/lunavox_tts/Audio/ReferenceAudio.py:15-16 | with `Max_Cached_Reference_Audio` unset, the capacity is 10 |
| RefAudio.CapacityFromDecimal | src/lunavox_tts/Audio/ReferenceAudio.py:15-16 | a decimal value of the variable is the capacity |
| RefAudio.PromptCache.constructor | src/lunavox_tts/Audio/ReferenceAudio.py:15-16 | the cache starts empty |
| RefAudio.PromptCache.New | src/lunavox_tts/Audio/ReferenceAudio.py:18-27 | a hit returns the cached instance; if the text differs, `set_text` runs under 'auto', so only text, phonemes and BERT change; an equal text changes nothing; a miss stores a fresh, uninitialised instance under the path, evicting at most one other path and none while there is room; no cached instance other than the path's may change |
| RefAudio.PromptCache.Hit | src/lunavox_tts/Audio/ReferenceAudio.py:19-23 | on a hit, the returned instance is the cached one and carries the new text; only text, phonemes and BERT change when the text differs, and nothing changes when it is equal |
| RefAudio.PromptCache.Admit | src/lunavox_tts/Audio/ReferenceAudio.py:26 | storing a new path maps it to the instance, keeps every other surviving entry, evicts at most one path, and evicts none while there is room |
| RefAudio.PromptCache.Construct | src/lunavox_tts/Audio/ReferenceAudio.py:18-53 | `ReferenceAudio(path, text, language)` leaves the instance cached under the path with the given text; unless it was already initialised, its phoneme row and BERT come from G2P under the caller's hint; an initialised instance with a new text gets them under 'auto', whatever the caller's hint, and keeps its audio; with the same text nothing changes; a new path that initialises holds the loaded audio and its embedding; `ok` holds iff the instance is initialised; no other cached instance may change |
| RefAudio.PromptCache.ClearCache | src/lunavox_tts/Audio/ReferenceAudio.py:66-69 | `clear_cache` leaves the cache empty |
| RefAudio.ConstructTwice | src/lunavox_tts/Audio/ReferenceAudio.py:18-53 | constructing twice with the same path yields the identical instance, carrying the second text; once the first call initialised it, the second keeps it initialised, keeps its audio fields, and with a different text takes its phonemes and BERT from G2P under 'auto'; if the first call failed, the second recomputes them under the caller's hint; every other cached instance is unchanged |
| Engine.TextFeatures | src/lunavox_tts/Core/Inference.py:28-43 | 'en' uses English G2P, 'zh' uses Chinese G2P and BERT, and anything else uses Japanese G2P; the features always have exactly one row per phoneme; 'zh' keeps the BERT rows iff their count matches, and raises only on a 0-d BERT array |
| Engine.RefBert | src/lunavox_tts/Core/Inference.py:47-49 | the reference BERT has one row per reference phoneme; it is the stored tensor exactly when that exists and its row count matches, and zeros when it is missing or mismatched |
| Engine.Scrub | src/lunavox_tts/Core/Inference.py:64-67 | the scrub only shortens the last axis, and leaves sentinel-free tokens unchanged |
| Engine.SentinelColumnOfRow | src/lunavox_tts/Core/Inference.py:64-66 | on [1, 1, n] tokens, the sentinel column is the position of the first sentinel in the row |
| Engine.TruncateRow | src/lunavox_tts/Core/Inference.py:67 | on [1, 1, n] tokens, `t[..., :c]` has shape [1, 1, c] and keeps the first c tokens |
| Engine.ScrubRow | src/lunavox_tts/Core/Inference.py:64-67 | on [1, 1, n] tokens, the scrub keeps exactly the tokens before the first sentinel, and none of them is a sentinel |
| Engine.NoPhonemesNoGraphs | src/lunavox_tts/Core/Inference.py:44-46 | without reference phonemes, `tts` returns None (or the Chinese front end's error) before any graph runs, whatever the graphs and the flag |
| Engine.TtsResult | src/lunavox_tts/Core/Inference.py:61-74 | a result is the first vocoder output on the scrubbed tokens of a finished decode, with the flag clear after decoding |
| Engine.TtsNoneOnlyWhen | src/lunavox_tts/Core/Inference.py:44-46 | `tts` returns None only without reference phonemes, or when the flag is read set after decoding |
| Engine.SynthesizeStep | src/lunavox_tts/Core/Inference.py:61-74 | after decoding, a raise propagates; a set flag gives None; otherwise the scrubbed tokens go to one vocoder run, as `Synthesize` defines |
| Engine.Tts | src/lunavox_tts/Core/Inference.py:18-74 | the imperative `tts` has the outcome `TtsSpec` defines on the reference instance's fields |
| Engine.TtsSpec | src/lunavox_tts/Core/Inference.py:18-74 | what `tts` returns; `TtsResult`, `TtsNoneOnlyWhen` and `NoPhonemesNoGraphs` state its cases |
| Engine.Synthesize | src/lunavox_tts/Core/Inference.py:61-74 | after decoding, the result is None exactly when the decode did not raise and the flag is read set; a returned array needs returned tokens, a clear flag and reference audio |
| Engine.Vocode | src/lunavox_tts/Core/Inference.py:70-74 | `vocoder.run(None, feed)[0]` never gives None: it returns output 0 exactly when the run succeeds with at least one output, and raises otherwise |

## Left out

- Graph numerics: the encoder, decoders, vocoder and CN-HuBERT are arbitrary functions of their feeds. Their outputs are never inspected beyond shapes and the values the decoder reads.
- The first-stage decoder is assumed to satisfy the ONNX Runtime contract (`Sessions.Conforms`): a successful run yields one array per declared output. The index errors a non-conforming first-stage run would cause are not modelled.
- Floating point: array elements are integers. Features, logits and audio matter only through shapes, comparisons and the argmax position. dtype casts (`int64`, `float32`) are not modelled.
- G2P and BERT internals (`english_to_phones`, `japanese_to_phones`, `chinese_clean_g2p_and_norm`, `compute_bert_phone_features`) are opaque functions. Exceptions raised inside them are not modelled.
- Audio I/O: `load_audio` is an opaque function, and so is resampling followed by the CN-HuBERT run. The lazy loading of CN-HuBERT by the model manager is not modelled.
- Threading: the stop flag is the sequence of values read at its checkpoints. What sets it, and when, is not modelled. The module-level `tts_client` instance is not modelled.
- In-place updates of numpy arrays are modelled on values. The write `y[0, -1] = 0` also mutates the stage's output array that `y` aliases; nothing in the model reads that array again.
- `int()` accepts only ASCII digits here. Python also accepts other Unicode decimal digits.
- RefAudio.PromptCache.New: does not say which path the LRU cache evicts. Lookups refreshing an entry's recency are not modelled, and a capacity below 1 is treated as 1. `LRUCacheDict` is not part of this model.
- A field of `ReferenceAudio` that was never set, namely `audio_32k` or `ssl_content` after a failed load, is modelled as None. `tts` then raises where Python raises `AttributeError`.
- `phonemes_seq` is the exception: an instance straight from `__new__`, before its `__init__` has run, has it unset. The model reads that as None, so `tts` returns None where Python raises `AttributeError` at Inference.py:44.
