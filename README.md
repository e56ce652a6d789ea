# Manga translator server requests and Gemini key validator, modelled in Dafny

This project models two parts of the manga translator repository.

**The HTTP translation endpoints** (`manga_translator/server/request_extraction.py`):

- `to_pil_image` sorts an input into one of four routes: an image object passed as is, raw bytes, a `data:image/...;base64,` URL, or any other URL. A failed conversion becomes HTTP 422.
- `prepare_translator_params` clears the client's server-controlled `cli` settings. It keeps a positive `attempts` and resolves a relative font name under `fonts/`. Then it sets the flags of the chosen workflow.
- The server-policy overlay forces the GPU, verbosity and model-lifetime settings from the server's configuration. It also forces the server's retry count when there is one. The streaming variant also defaults `attempts` to 2.
- `get_ctx` and `get_batch_ctx` run the pipeline and attach the `_workflow_result` record (success, workflow, has_image, text regions) to every returned context. Their `finally` blocks close every converted image.
- `while_streaming` registers a task. Its generator `_do_translation` emits length-prefixed frames (`pack_message`: a status byte, a 4-byte big-endian length, the data). It checks the task's cancellation flag at three checkpoints and calls the pipeline once. Every path ends the stream with exactly one outcome: the payload followed by `complete`, or a single error frame tagged `translate`, `no_result`, `transform`, `cancelled` or `unknown`. On every path its `finally` block releases the context's large buffers, closes the image and unregisters the task.

**The Gemini API key validator** (`gemini_key_validator_ui.py`):

- `re.findall` of `AIza[0-9A-Za-z\-_]{35}`, deduplicated and sorted. This is modelled as a left-to-right scan that skips each match, plus an insertion sort under Python's string order.
- The `check_key` return rule and its log lines. A log line shows only the last four characters of a key.
- `validate_keys_async`: keeps the truthy results in key order, then puts a single `DONE` message last.
- The queue drain and the no-keys branch of `start_validation_thread`.
- One call of `process_queue`.

The pipeline, the HTTP probe, the cancellation flag, the image decoder and the font lookup are not part of this code. Each appears as an input that says how it behaves:

- `PipelineOutcome` and `BatchOutcome` for the pipeline;
- `Probe` for the HTTP probe;
- `Checkpoints` for the cancellation flag;
- the `decodes` flag for the image decoder;
- `FontQuery` for the font lookup.

The streaming job is proved two ways:

- The methods `Streaming.DoTranslation` and `Streaming.WhileStreaming` produce exactly `Streaming.Trace`, which follows the generator step by step. The one exception is a request cancelled while `Streaming.WhileStreaming` waits for a translation slot: then nothing is sent.
- The lemma `Streaming.TraceIsExpected` proves that this trace equals `Streaming.ExpectedFrames`. That function states the protocol: well formed, stages in order, one terminal outcome, and the outcome each oracle combination leads to.

## Model

| member | source | states |
|---|---|---|
| Framing.BigEndian4RoundTrip | manga_translator/server/request_extraction.py:502 | reading back the 4-byte big-endian length prefix gives the length that was written |
| Framing.ReadBigEndian4RoundTrip | manga_translator/server/request_extraction.py:502 | every 4-byte prefix is the encoding of the length it reads as |
| Framing.PackMessage | manga_translator/server/request_extraction.py:500-502 | packing succeeds exactly when the status fits one byte and the length fits four (otherwise `to_bytes` raises); the message is the status byte, the big-endian length and the data, 5 bytes longer than the data |
| Framing.PackThenDecode | manga_translator/server/request_extraction.py:500-502 | a reader splits a packed message off any following bytes and gets back its status and data |
| Framing.DecodeThenPack | manga_translator/server/request_extraction.py:500-502 | whatever a reader accepts is exactly a packed message followed by the rest |
| Framing.DecodeAllPackAll | manga_translator/server/request_extraction.py:500-502 | a stream of packed messages reads back as the same messages in the same order |
| Framing.PackAllDefined | manga_translator/server/request_extraction.py:500-502 | a stream packs without error when every message's data is shorter than 2^32 bytes |
| Params.WorkflowParams | manga_translator/server/request_extraction.py:133-157 | a workflow sets only workflow flags, each to `True` |
| Params.WorkflowFlags | manga_translator/server/request_extraction.py:133-157 | each named workflow sets exactly its own flags; `normal` and unknown workflows set none |
| Params.ClientBase | manga_translator/server/request_extraction.py:119-131 | `attempts` is kept exactly when it is present and positive, `font_path` is set exactly when the relative font resolves under `fonts/`, and nothing else is set |
| Params.ClientParams | manga_translator/server/request_extraction.py:95-159 | `attempts` is kept exactly when it is present and positive; `font_path` is set exactly when the relative font resolves under `fonts/`; the workflow flags are those of the workflow; no server-controlled key is set |
| Params.ClearServerControlled | manga_translator/server/request_extraction.py:97-117 | every workflow and GPU flag of the client's `cli` settings is off afterwards, and `attempts` is unchanged |
| Params.KeepClientSettings | manga_translator/server/request_extraction.py:119-131 | the dictionary holds exactly the client's kept `attempts` and resolved font |
| Params.SetWorkflowFlags | manga_translator/server/request_extraction.py:133-157 | the workflow's flags are added to the dictionary, overriding nothing else |
| Params.PrepareTranslatorParams | manga_translator/server/request_extraction.py:83-159 | clears every workflow and GPU flag of the client's `cli` settings, leaves `attempts` alone, and returns the client-derived parameters |
| Params.ApplyServerPolicy | manga_translator/server/request_extraction.py:306-320 | the server's GPU, verbosity and model-lifetime values (or their defaults) always win; a server retry count overrides `attempts`; without one the streaming variant sets `attempts` to 2 when it is missing or -1 and the other entry points leave it alone; no other key changes |
| Params.TranslatorParams | manga_translator/server/request_extraction.py:178-189 | the parameters the pipeline is built with carry the workflow's flags and all server keys; streaming always gets a positive retry count unless the server sets one |
| Params.ServerPolicyWins | manga_translator/server/request_extraction.py:306-317 | requests that differ in everything the client controls get identical server-controlled settings |
| Results.Ctx.ReleaseBuffers | manga_translator/server/request_extraction.py:453-468 | the result image and large buffers are dropped; success, text regions and the workflow record stay |
| Results.RegionsData | manga_translator/server/request_extraction.py:212-217 | one `{text, translation}` entry per region, in order |
| Results.WorkflowResultOf | manga_translator/server/request_extraction.py:200-217 | success is the context's own flag or else whether a result exists; `has_image` exactly when a result exists; text regions present exactly when the context has some, one entry each |
| Results.BuildWorkflowResult | manga_translator/server/request_extraction.py:200-223 | the loop builds exactly the record of the context's current fields |
| Images.Image.Close | manga_translator/server/request_extraction.py:229-232 | the image is closed afterwards |
| Images.IsDataImageUrl | manga_translator/server/request_extraction.py:69 | `re.match(r'^data:image/.+;base64,', s)`: the prefix, one or more characters other than a newline, then `;base64,` |
| Images.FirstComma | manga_translator/server/request_extraction.py:71 | the position of the first comma, which `split(',', 1)` splits at |
| Images.DataImageUrlHasComma | manga_translator/server/request_extraction.py:70-71 | a string matching the data-URL pattern has a comma, so the split yields a second part |
| Images.RouteOf | manga_translator/server/request_extraction.py:61-78 | an image object goes through as is, bytes are opened, a data-image URL is decoded from after its first comma, and any other string is fetched, each exactly in its case |
| Images.WellFormedDataUrl | manga_translator/server/request_extraction.py:70-74 | `data:image/<type>;base64,<data>` matches the pattern and decodes exactly `<data>` |
| Images.ToPilImage | manga_translator/server/request_extraction.py:61-80 | an image object is returned itself; any other input yields a fresh open image exactly when it decodes, and otherwise status 422 |
| Registry.TaskRegistry.Register | manga_translator/server/request_extraction.py:265 | the task becomes active and a registration is logged |
| Registry.TaskRegistry.Unregister | manga_translator/server/request_extraction.py:495 | the task stops being active and an unregistration is logged |
| Streaming.EndingOf | manga_translator/server/request_extraction.py:288-448 | the job delivers exactly when it loads, is never cancelled, the pipeline returns a result and the payload packs; each error tag holds exactly in its own circumstances (image load or translator construction failure is `unknown`, a checkpoint or a cancelled pipeline is `cancelled`, and so on) |
| Streaming.StageListAscending | manga_translator/server/request_extraction.py:291-422 | the progress stages are listed in protocol order and `complete` is not among the ones before the outcome |
| Streaming.PrefixMembers | manga_translator/server/request_extraction.py:291-422 | a prefix of the stage list opens with the first three stages, stays in order, and holds each later stage exactly when the prefix reaches it |
| Streaming.ProgressStages | manga_translator/server/request_extraction.py:291-422 | every job opens with `task_id`, `start`, `image_loading`; each later stage appears exactly when its step is reached |
| Streaming.EmitWellFormed | manga_translator/server/request_extraction.py:288-448 | progress frames followed by one terminal outcome form a well-formed stream whose only payload is the delivered data |
| Streaming.EmitStages | manga_translator/server/request_extraction.py:288-448 | such a stream lists its stages in protocol order, and exactly the stages it was given |
| Streaming.Emit | manga_translator/server/request_extraction.py:288-448 | the stream is well formed and in order, ends with the error frame or with the payload and `complete`, and has no other payload |
| Streaming.ExpectedFrames | manga_translator/server/request_extraction.py:288-448 | a job's stream is well formed, in order, ends with `complete` exactly when it delivers (payload just before), ends with error tag t exactly when its ending is that error, and a cancellation at a checkpoint suppresses the later stages |
| Streaming.InvocationTrace | manga_translator/server/request_extraction.py:356-429 | when the pipeline is called and returns, the generator's frames are the protocol's |
| Streaming.Trace | manga_translator/server/request_extraction.py:288-448 | the generator's frames: the three opening stages, then `unknown` if the image fails to load, a cancellation at the first checkpoint, or `translator_init` and what follows |
| Streaming.AfterInit | manga_translator/server/request_extraction.py:336-353 | after `translator_init`: the second checkpoint, the translator's construction (failing as `unknown`), `translating` and the third checkpoint |
| Streaming.Invocation | manga_translator/server/request_extraction.py:356-402 | the pipeline call: `translate` if it raises, `cancelled` if it is cancelled, otherwise `translate_done`, then `processing` when there are text regions |
| Streaming.AfterProcessing | manga_translator/server/request_extraction.py:404-429 | `no_result` without a result image; otherwise `transforming`, then `transform` if it raises or the payload does not fit a frame, else `sending`, the payload and `complete` |
| Streaming.EarlyTrace | manga_translator/server/request_extraction.py:289-388 | on every path that stops before the pipeline returns, the generator's frames are the protocol's |
| Streaming.TraceIsExpected | manga_translator/server/request_extraction.py:288-448 | the frames the generator yields, step by step, are the protocol's frames on every path |
| Streaming.StreamRoundTrip | manga_translator/server/request_extraction.py:291-445 | a stream whose payload fits the length prefix packs frame by frame and reads back as the same messages |
| Streaming.ExpectedStreamReadsBack | manga_translator/server/request_extraction.py:288-448 | every job's stream packs without error and reads back exactly |
| Streaming.HandledAppend | manga_translator/server/request_extraction.py:431-448 | the `except` clauses only append to what the `try` body already yielded |
| Streaming.Invoke | manga_translator/server/request_extraction.py:356-429 | from the pipeline call on, the frames are the protocol's for the pipeline's and transform's outcomes; a returned context gets its workflow record |
| Streaming.RunTranslator | manga_translator/server/request_extraction.py:333-429 | after `translator_init` the frames follow the remaining checkpoints and outcomes; the pipeline is called exactly when no later checkpoint fires and the translator is built |
| Streaming.LoadAndPrepare | manga_translator/server/request_extraction.py:300-320 | the image converts exactly when its input loads; the client settings are cleared and the streaming parameters derived, exactly when it does |
| Streaming.AfterLoad | manga_translator/server/request_extraction.py:327-429 | after the image is loaded, a cancellation at the first checkpoint ends with `cancelled`; otherwise `translator_init` comes next and the frames follow the remaining steps |
| Streaming.TranslationBody | manga_translator/server/request_extraction.py:289-429 | the `try` body yields the opening frames, converts the image, derives the streaming parameters, and hands on to the pipeline exactly when the job is invoked; client settings are cleared exactly when the image loaded |
| Streaming.Guarded | manga_translator/server/request_extraction.py:289-448 | with its `except` clauses, the frames are the generator trace on every path |
| Streaming.Cleanup | manga_translator/server/request_extraction.py:449-495 | the context's buffers are released, the image closed and the task unregistered |
| Streaming.DoTranslation | manga_translator/server/request_extraction.py:288-495 | the whole generator: the trace, image closed, task unregistered, client settings cleared when loaded, a returned context decorated and released exactly when the pipeline was called, untouched otherwise |
| Streaming.WhileStreaming | manga_translator/server/request_extraction.py:256-286 | the task is registered first; if the request is cancelled while waiting for a translation slot, nothing is sent, nothing else changes and the task stays registered; otherwise the job's frames are sent, the cli flags are cleared once the image loads, a context the pipeline returned gets its record and is released, the image is closed, and the task is removed, so a fresh id leaves the registry as it was and exactly the registration and the removal are logged |
| Batch.GetCtx | manga_translator/server/request_extraction.py:162-245 | 422 exactly when the image does not convert; a context exactly when it converts, the translator is built and the pipeline returns, decorated with its record; the image is closed on every path after conversion; parameters use the non-streaming overlay |
| Batch.LoadedPrefix | manga_translator/server/request_extraction.py:514-516 | the inputs before the first one that fails to convert all convert |
| Batch.ConvertAll | manga_translator/server/request_extraction.py:514-516 | converts in order and stops at the first rejected input with 422, keeping the images converted so far |
| Batch.CloseAll | manga_translator/server/request_extraction.py:571-575 | every converted image is closed |
| Batch.DecorateAll | manga_translator/server/request_extraction.py:544-563 | every non-`None` context gets the record of its fields as they were; nothing else of them changes |
| Batch.GetBatchCtx | manga_translator/server/request_extraction.py:505-592 | 422 exactly when some input fails to convert; the contexts exactly when all convert, the translator is built and the batch returns, each decorated; every converted image is closed on every path, and a given image after the first rejected input is left untouched |
| Keys.MatchesAreMatches | gemini_key_validator_ui.py:103 | every reported position is a match of the pattern at or after the start of the search |
| Keys.MatchesDisjoint | gemini_key_validator_ui.py:103 | the matches come left to right and do not overlap |
| Keys.MatchesComplete | gemini_key_validator_ui.py:103 | every place the pattern matches lies inside a reported match |
| Keys.KeyAt | gemini_key_validator_ui.py:12 | the pattern `AIza[0-9A-Za-z\-_]{35}` matches at a position: `AIza` there, then 35 characters of the class |
| Keys.MatchesFrom | gemini_key_validator_ui.py:103 | `re.findall`'s scan: record a match and resume after it, otherwise move on one character; its properties are the three lemmas that follow |
| Keys.MatchIsKey | gemini_key_validator_ui.py:12 | the text of a match is `AIza` followed by 35 key characters |
| Keys.FindKeys | gemini_key_validator_ui.py:103 | every key found is 39 characters, `AIza` and 35 characters of `[0-9A-Za-z-_]`, one per match |
| Keys.FindKeysText | gemini_key_validator_ui.py:103 | each key found is the text of the corresponding match, in the order of the matches |
| Keys.NoKeysIffNoMatch | gemini_key_validator_ui.py:103-106 | nothing is found exactly when the pattern matches nowhere in the text |
| Keys.Less | gemini_key_validator_ui.py:104 | Python's `<` on strings: code-point lexicographic order, a prefix before its extensions |
| Keys.LessIrreflexive | gemini_key_validator_ui.py:104 | Python's string order is irreflexive |
| Keys.LessTransitive | gemini_key_validator_ui.py:104 | Python's string order is transitive |
| Keys.LessTotal | gemini_key_validator_ui.py:104 | any two different strings are ordered one way |
| Keys.LessAsymmetric | gemini_key_validator_ui.py:104 | the order is asymmetric |
| Keys.AscendingHasNoDuplicates | gemini_key_validator_ui.py:104 | a strictly ascending list has no duplicates |
| Keys.Insert | gemini_key_validator_ui.py:104 | inserting keeps the list ascending and adds exactly the key |
| Keys.SortedUnique | gemini_key_validator_ui.py:104 | `sorted(set(keys))` is ascending and holds exactly the keys |
| Keys.AscendingUnique | gemini_key_validator_ui.py:104 | two ascending lists with the same elements are equal, so the sorted set is unique |
| Keys.UniqueKeys | gemini_key_validator_ui.py:102-104 | the unique keys are strictly ascending and are exactly the keys found, all of key form, and empty exactly when the text has no match |
| Validator.CheckKey | gemini_key_validator_ui.py:15-38 | the key is returned exactly when the status is 200; every other status, a timeout and any other error give `None` |
| Validator.Last4 | gemini_key_validator_ui.py:23 | Python's `key[-4:]`: the whole key when it is at most four characters long |
| Validator.Outcome | gemini_key_validator_ui.py:23-37 | what each branch says after the key: valid, invalid with status and the error message or else the reason, timed out, or the exception text |
| Validator.LogLine | gemini_key_validator_ui.py:23-37 | the line `check_key` queues: its tag, `Key ...`, the last four characters and the outcome |
| Validator.LogLineShowsLast4 | gemini_key_validator_ui.py:22-38 | keys with the same last four characters produce the same log line on every branch |
| Validator.LogLineMarksResult | gemini_key_validator_ui.py:22-38 | a log line starts with `[  OK  ]` exactly when the check returned the key |
| Validator.Results | gemini_key_validator_ui.py:46-47 | one check result per key |
| Validator.ResultsAt | gemini_key_validator_ui.py:46-47 | entry `i` of the `gather` list is the check of key `i` |
| Validator.Kept | gemini_key_validator_ui.py:49-51 | the truthy results are never more than the results |
| Validator.CollectValid | gemini_key_validator_ui.py:49-51 | the loop keeps exactly the present, non-empty results, in order |
| Validator.KeptOnlyAccepted | gemini_key_validator_ui.py:49-51 | every valid key is a checked key that is non-empty and whose probe answered 200 |
| Validator.AcceptedKept | gemini_key_validator_ui.py:49-51 | every checked key that is non-empty and whose probe answered 200 is valid |
| Validator.KeptChecks | gemini_key_validator_ui.py:40-53 | a key is valid exactly when it is non-empty and its probe answered 200 |
| Validator.KeptSubset | gemini_key_validator_ui.py:49-51 | the valid keys are among the keys checked |
| Validator.KeptAscending | gemini_key_validator_ui.py:49-51 | valid keys stay in ascending order when the keys were |
| Validator.MessageQueue.IsEmpty | gemini_key_validator_ui.py:96 | true exactly when nothing is queued |
| Validator.MessageQueue.GetNowait | gemini_key_validator_ui.py:97-100 | takes the oldest item, or reports the queue empty and changes nothing |
| Validator.MessageQueue.Put | gemini_key_validator_ui.py:53 | the item is queued last |
| Validator.CheckKeyInto | gemini_key_validator_ui.py:15-38 | puts exactly the key's log line on the queue and returns the check's result |
| Validator.Lines | gemini_key_validator_ui.py:46 | one log line per key |
| Validator.LinesAt | gemini_key_validator_ui.py:46 | line `i` is the log line of key `i` |
| Validator.CheckAll | gemini_key_validator_ui.py:46-47 | every key's log line is queued in key order, and the results are one per key, in key order |
| Validator.ValidateKeysAsync | gemini_key_validator_ui.py:40-53 | one log line per key in key order, then the single `DONE` message with the valid keys |
| Validator.DoneAfterLines | gemini_key_validator_ui.py:53 | after any run of log lines, the `DONE` message is the first of its kind |
| Validator.DoneIsLastAndOnly | gemini_key_validator_ui.py:40-53 | in what the worker queues, the `DONE` message is the last item and the first of its kind |
| Validator.FirstDone | gemini_key_validator_ui.py:123-137 | the first `DONE` message has only log lines before it; without one, the queue holds only log lines |
| Validator.Shown | gemini_key_validator_ui.py:133-136 | nothing is shown for no valid keys; otherwise the header and the keys |
| Validator.CompletionSummary | gemini_key_validator_ui.py:131 | the summary text: `Validation complete. Found <n> valid key(s) out of <total> unique keys.` |
| Validator.TotalAsWritten | gemini_key_validator_ui.py:130 | the total the summary shows counts every match of the pattern |
| Validator.TotalKeysCountsDistinct | gemini_key_validator_ui.py:130-131 | the corrected total is the number of distinct keys in the input |
| Validator.TotalCountsRepeats | gemini_key_validator_ui.py:130-131 | a key pasted twice counts as 2 in the total as written and as 1 distinct key |
| Validator.ValidWithinTotal | gemini_key_validator_ui.py:130-131 | the valid count never exceeds the corrected total |
| Validator.TotalAsWrittenVersusDistinct | gemini_key_validator_ui.py:130-131 | the total as written is never below the distinct count, and equals it exactly when no key repeats |
| Validator.App.StartValidation | gemini_key_validator_ui.py:87-119 | the queue is drained and the output cleared; with no key, the button is re-enabled, the summary says none was found and no worker starts; otherwise the button is disabled and the worker gets the unique keys |
| Validator.App.ShowLines | gemini_key_validator_ui.py:122-141 | shows every log line before the first `DONE` message, in order, and consumes through it; without one it empties the queue |
| Validator.App.Finish | gemini_key_validator_ui.py:127-138 | on `DONE`: the summary gives the valid count and, as the total, the number of pattern matches in the input, repeats included; the button is re-enabled and the valid keys shown under a header |
| Validator.App.Idle | gemini_key_validator_ui.py:145-151 | polling goes on exactly while the worker lives and nothing changes then; once it is gone the button is re-enabled and an unexpected end is reported unless the summary says "Validation complete" |
| Validator.App.ProcessQueue | gemini_key_validator_ui.py:120-149 | on `DONE`: the summary with the valid count and the number of pattern matches as the total, the valid keys under a header, the button re-enabled, polling stops; otherwise polling goes on while the worker lives, and when it is gone the button is re-enabled and an unexpected end is reported unless the summary already says "Validation complete" |
| Validator.App.RunWorker | gemini_key_validator_ui.py:114-117 | the worker's messages are those of validating exactly the keys it was handed |

## Left out

- The pipeline (`MangaTranslator`, `translate`, `translate_batch`) is not part of this model. Its outcome is an input: it raises, is cancelled, or returns a context. Building it is an input that may fail.
- `with_user_env_vars` and the environment variables it sets are left out. The block wraps the translator's construction (`MangaTranslator(params=...)`) and the pipeline call: in `get_ctx` (request_extraction.py:192-197), in `get_batch_ctx` (:536-541), and in the streaming job (:333-388). In the streaming job the block also covers the `translator_init` and `translating` frames and the second and third cancellation checkpoints. Entering or leaving the block is taken never to fail and never to change the frames or the state modelled.
- Sending a frame is taken always to succeed: each `yield` hands its frame on. In the source, a client disconnect throws into the generator at the `yield` that is waiting, which skips the rest of the `try` body and runs the `finally` block. The bare `except: pass` around the error-frame yields (:434-437, :444-448) swallows such a failure before the `finally`. The model's frame list is what a client that reads to the end receives; a stream cut short at an earlier frame is not modelled.
- The concurrency semaphore's slot count and the wait-queue logging in `while_streaming` are left out. Only the wait itself is modelled: `Streaming.WhileStreaming` takes as an input whether the request is cancelled while waiting for a slot (a client disconnect, or a cancel of the task registered at request_extraction.py:265). On that path `_do_translation` never starts, so no frame is sent, nothing is cleaned up, and the task stays registered, since the only `unregister_active_task` call (:495) sits in `_do_translation`'s `finally`.
- `set_cancel_check_callback` is left out. A cancellation the pipeline itself notices is modelled as the pipeline raising `CancelledError`.
- The JSON progress and error bodies are reduced to their `stage` name. The Chinese human-readable messages, the error texts and `ensure_ascii` encoding are left out.
- Logging (`add_log`, `print`, `traceback`), `gc.collect` and `torch.cuda.empty_cache` are left out. They have no effect on the frames or the state modelled.
- The extra image buffers the cleanup clears (`img_rgb`, `img_inpainted`, `img_rendered`, `img_colorized`, `mask`, `mask_raw`) are one `buffers` set.
- The `hasattr` guards on `config.cli` and its fields (request_extraction.py:98-120), on `config.render.font_path` (:126), on `ctx.result` (:359, :391, :455) and on `ctx.text_regions` (:370, :392) are taken as true: the configuration and context classes declare those fields. A missing `success` attribute and a region without `text` or `translation` are modelled (`Results.Ctx.success` is an option; `Results.Region` has optional texts).
- `if ctx.result:` (request_extraction.py:206, :367, :551) tests Python truthiness; the model reads it as `ctx.result is not None`, which agrees for image objects, as they are always truthy.
- The image decoder, base64, `requests.get` and `Image.open` are not part of this model. Whether conversion succeeds is an input.
- `os.path.exists` for the font is an input.
- `batch_size` is passed through to `translate_batch` untouched. It is left out.
- `generate_task_id`, `set_task_id` and `asyncio.current_task` are left out. The task id is an input.
- `Registry.TaskRegistry` is modelled as a set of active ids with an event log. The registry functions of `manga_translator/server/main.py` are not part of this model.
- FastAPI's `StreamingResponse` and `HTTPException` are reduced to the frame list and a status code.
- aiohttp, the real HTTP request and the model name are not part of this model. Each key's probe outcome is an input.
- Under `asyncio.gather` the checks run concurrently, so their log lines may interleave in any order. The model puts them in key order; the `DONE` message is last either way.
- threading and the customtkinter widgets are left out. The widgets are fields of `Validator.App`. The worker thread runs as a separate method, `Validator.App.RunWorker`.
- The `after(100, ...)` polling loop is left out. `Validator.App.ProcessQueue` models one poll; whether the worker is alive is an input.
- In the source, the error body's `message` may be any JSON value. It is taken to be a string.
- Validator.LogLineShowsLast4: holds only because the probe's error texts (the exception text at gemini_key_validator_ui.py:37, the error message at :29 and the reason at :31) are inputs that do not depend on the key. In the source some aiohttp exceptions print the request URL, which carries the full key in `?key=` (:19); such a line would show the whole key, and the model does not capture that.
- `os.path.join(BASE_PATH, 'fonts', f)` is modelled as `BASE_PATH + "/fonts/" + f` (`Params.FontsPath`). The separator rules of `os.path.join` are left out: trailing separators on `BASE_PATH` and a Windows separator. An absolute `f` is never joined: the source skips it, and so does the model.
- The `__main__` block and the event-loop policy are left out.

## Findings

| source | as written | input that shows it | evidently intended | confidence | as-written member | corrected member |
|---|---|---|---|---|---|---|
| gemini_key_validator_ui.py:130-131 | the completion summary reports `len(re.findall(...))` as the number of "unique keys", which counts every match including repeats | an input holding the same key twice: the summary says "out of 2 unique keys" after only one key was checked | the total is the number of distinct keys, as in the "Found N unique keys" line at 111 | high; not executed | Validator.TotalAsWritten, Validator.TotalCountsRepeats, Validator.App.Finish | Validator.TotalKeys, Validator.TotalKeysCountsDistinct, Validator.TotalAsWrittenVersusDistinct, Validator.ValidWithinTotal |

The window itself (`Validator.App.Finish`, `Validator.App.ProcessQueue`) shows the total as written, as the program does; the distinct count is stated beside it and compared with it.
