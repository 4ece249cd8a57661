# Dafny model of the PO-file translation manager

The system is a command-line tool. It loads a gettext PO catalog and sends its
untranslated entries, in batches, to a remote language model. It writes the answers
back into the catalog, lets the user edit changed entries by hand, and saves the file.
The model covers the two components that hold its logic.

- **`TranslationManager`** (translation_manager.py) keeps the catalog's bookkeeping.
  Each entry has a `msgid`, a `msgstr` and an optional baseline `original_msgstr`.
  The model covers:
  - baseline capture at load time;
  - the statistics;
  - the untranslated and modified filters;
  - the baseline reset at save time;
  - the manual edit step;
  - the cap prompt of the "translate" menu choice, which sets how many entries to translate;
  - the batch driver `translate_entries`.

  The driver works in place:
  - it caps the pending list;
  - it drops entries whose `msgid` is blank, capturing baselines on the others;
  - it cuts what is left into consecutive batches of `BATCH_SIZE`;
  - it calls the translator on each batch;
  - it stores only the slots that hold a result.
- **`GeminiTranslator`** (translator.py) is the translation client. The model covers:
  - building the indexed, tagged request list;
  - decoding an already parsed JSON response into one result slot per entry;
  - the bounded retry loop with its back-off schedule;
  - the `translate` and `translate_plural` wrappers.

  The remote model is replaced by an oracle: a script of per-attempt outcomes. Each
  outcome is a decoded JSON value, a JSON decode error, or any other exception. Batch
  `k` of a driver run follows script `k`. An attempt past the end of its script behaves
  like a call that raised.

## Layout

- `wrappers.dfy`: `Option` and `Result`.
- `seqs.dfy`:
  - order-preserving filters (`Select`, `Positions`);
  - counting;
  - flattening;
  - the slicing of a list into batches.
- `pystr.dfy`:
  - Python's `str.isspace`, `str.strip()` and `int()` on a string;
  - `str()` of an integer.
- `translator.dfy`: `GeminiTranslator`.
- `catalog.dfy`:
  - catalog entries as a class with mutable `msgstr` and baseline fields;
  - their value snapshots;
  - loading, statistics, filters, saving and editing.
- `manager.dfy`:
  - `translate_entries`, as methods;
  - the specification function `TranslateEntriesSpec` they are proved against;
  - the lemmas about that specification;
  - the "translate" menu step.

## Model

| member | source | states |
|---|---|---|
| Translator.CreateInputData | translator.py:58-76 | The request list built by appending one item per entry is `InputData(entries)`. When building stops, it stops at the first entry whose request cannot be built. |
| Translator.InputDataShape | translator.py:60-76 | The request has one item per entry, with ids 0..n-1 in input order. An item is plural exactly when its entry is a dict holding `msgid_plural`, and then it carries that dict's `msgid` and `msgid_plural`. Otherwise it is simple, and its text is the string itself or the dict's `msgid`. Building fails, with `KeyError`, exactly when some dict lacks `msgid`, and it reports the first such entry. |
| Translator.StringsBuildRequest | translator.py:70-76 | A batch of bare strings always yields a request. |
| Translator.PluralRequestBuilds | translator.py:61-69 | The `{msgid, msgid_plural}` request of `translate_plural` becomes the single plural item with id 0. |
| Translator.DecodeSlot | translator.py:110-119 | The slot for one response object: a simple result for type `"simple"` with a string translation, a plural result for type `"plural"` with an object translation (whatever its keys), otherwise none. |
| Translator.DecodeAll | translator.py:108-119 | The slots for a response array, one per element in order, or a failed attempt when some element is not an object. `DecodePointwise` and `DecodeEncode` state its properties. |
| Translator.DecodePointwise | translator.py:108-119 | When every element is an object, slot `k` is the decoding of element `k` alone. Replacing one element with another object changes only that element's slot. |
| Translator.DecodeResponse | translator.py:108-119 | The element-by-element loop yields `DecodeAll`. That is one slot per element, in order, or a failed attempt when some element is not an object. |
| Translator.DecodeEncode | translator.py:108-116 | Decoding a well-formed response (simple objects with a string translation, plural objects with an object translation) gives back every result, in order. |
| Translator.MalformedElementIsolated | translator.py:113-119 | An element whose translation has the wrong type yields `None` in its own slot. The slots on either side still carry their simple and plural results. |
| Translator.Judge | translator.py:95-122 | An accepted attempt for a batch of `n` entries has exactly `n` slots. |
| Translator.Retry | translator.py:89-136 | On every path, the retry loop returns exactly `n` slots after at most `maxRetries` attempts. It sleeps once fewer times than it attempts. When no attempt is left, the result is all `None`. |
| Translator.TranslateBatchSpec | translator.py:81-136 | `translate_batch` against a script: an empty batch returns at once, a batch whose request cannot be built raises, and any other batch runs the retry loop. `BatchShape`, `RetrySchedule`, `RetryExhausted`, `RetryFirstAccepted` and `BatchRoundTrip` state its properties. |
| Translator.TranslateBatch | translator.py:81-136 | The imperative retry loop, with its sleeps, returns exactly the outcome `TranslateBatchSpec` gives: slots, number of attempts and sleep durations. |
| Translator.BatchShape | translator.py:81-136 | An empty batch returns `[]` with no attempt and no sleep. Any returned batch has one slot per entry and at most `maxRetries` attempts, and at least one attempt when it is non-empty. |
| Translator.StringBatchReturns | translator.py:86-89 | A batch of bare strings never raises out of `translate_batch`. |
| Translator.RetrySchedule | translator.py:100-134 | Every sleep follows a failed attempt. It lasts `retry_delay * (attempt + 1)` after a shape mismatch or a generic error, and `retry_delay` after a decode error. No sleep follows the final attempt. |
| Translator.RetryExhausted | translator.py:89-136 | When no attempt is accepted, the result is one `None` per entry, after exactly `maxRetries` attempts, and the loop returns normally. |
| Translator.RetryFirstAccepted | translator.py:89-122 | The first accepted attempt decides the slots, and it is the last attempt made. |
| Translator.BatchRoundTrip | translator.py:81-122 | For any buildable batch, a well-formed reply to the first attempt gives every result in order. That takes one attempt and no sleep. |
| Translator.DefaultScheduleOnMismatch | translator.py:21-23 | With the default settings (3 attempts, 5 s), three wrong-length replies give one `None` per entry, after sleeps of 5 s and 10 s. |
| Translator.Translate | translator.py:138-144 | `translate`: blank text as it is, otherwise the text of a simple result, or `None`. `TranslateBlank` and `TranslateRoundTrip` state its properties. |
| Translator.TranslatePlural | translator.py:146-155 | `translate_plural`: `None` for a blank source, otherwise the forms of a plural result, or `None`. `TranslatePluralRoundTrip` states its properties. |
| Translator.TranslateBlank | translator.py:138-141 | `translate` returns blank text unchanged. The result does not depend on the remote model. |
| Translator.TranslateRoundTrip | translator.py:138-144 | `translate` returns the text of a simple result. A plural result gives `None`. |
| Translator.TranslatePluralRoundTrip | translator.py:146-155 | `translate_plural` gives `None` when either source text is blank. Otherwise, when at least one attempt is allowed, a plural reply gives its forms and a simple reply gives `None`. |
| Catalog.Capture | translation_manager.py:41-43 | Capturing sets the baseline to `msgstr` only when there is none. An existing baseline is kept, and `msgid` and `msgstr` are untouched. |
| Catalog.CaptureIdempotent | translation_manager.py:41-43 | Capturing twice is capturing once, and it does not change whether the entry counts as modified. After capturing, an entry is modified only if it already had a baseline. |
| Catalog.CatalogEntry.EnsureBaseline | translation_manager.py:42-43 | The entry's new state is the captured state. |
| Catalog.LoadPoFile | translation_manager.py:36-47 | A failed parse gives no catalog. Otherwise every entry is captured, in place, and the same entries are returned. |
| Catalog.GetTranslationStats | translation_manager.py:49-58 | The statistics: every entry counts, and an entry is translated when its `msgstr` is truthy. `StatsConsistent` states their properties. |
| Catalog.StatsConsistent | translation_manager.py:49-58 | `total` is the number of entries and `translated + untranslated == total`. `untranslated` is the length of the untranslated list. The percentage lies in [0, 100]. It is 0 for an empty catalog and 100 when every entry is translated. |
| Catalog.PercentBounds | translation_manager.py:57 | The percentage lies in [0, 100]. It is 0 when the total is 0 and 100 when all entries are translated. |
| Catalog.SelectIsOrderedFilter | translation_manager.py:70 | A conditional list comprehension returns exactly the entries whose condition holds, in catalog order, each once. |
| Catalog.GetUntranslatedEntries | translation_manager.py:68-70 | The entries whose `msgstr` is empty, in catalog order. `UntranslatedExact` characterises the list exactly. |
| Catalog.UntranslatedExact | translation_manager.py:68-70 | `get_untranslated_entries` returns exactly the entries with an empty `msgstr`, in order, without repeats. |
| Catalog.GetModifiedEntries | translation_manager.py:151-153 | The entries with a baseline that differs from their `msgstr`, in catalog order. `ModifiedExact` characterises the list exactly. |
| Catalog.ModifiedExact | translation_manager.py:151-153 | `get_modified_entries` returns exactly the entries that have a baseline differing from their `msgstr`, in order, without repeats. |
| Catalog.ResetBaseline | translation_manager.py:140-142 | After the reset, an entry with a baseline has baseline == `msgstr` and is not modified. An entry without a baseline gets none. |
| Catalog.NoModifiedWhenBaselinesCurrent | translation_manager.py:151-153 | When no entry's baseline differs from its `msgstr`, the modified list is empty. |
| Catalog.SavePoFile | translation_manager.py:136-149 | Every baseline is reset before the write is attempted, whether or not the write succeeds. Afterwards the modified list is empty, and the result is the write's outcome. |
| Catalog.Edit | translation_manager.py:193-202 | The manual edit as a value: a non-blank answer, stripped, becomes the translation after the baseline is captured; a blank answer changes nothing. `EditTracksBaseline` states its properties. |
| Catalog.EditTracksBaseline | translation_manager.py:193-202 | A blank answer changes nothing. A non-blank answer becomes the stripped text, and the baseline is captured first if it was missing. The entry is then modified exactly when the new text differs from the baseline. |
| Catalog.EditTranslation | translation_manager.py:193-199 | The entry changes exactly when the answer is not blank, and then as `Edit` says. |
| Catalog.EditModifiedEntry | translation_manager.py:185-202 | Entry `entryNum` of the modified list (1-based) receives the edit. After a change it stays in the recomputed modified list exactly when the new text differs from its baseline. |
| Manager.SliceStop | translation_manager.py:88 | The Python slice `[:stop]` never reaches past the list. A negative stop counts from the end. |
| Manager.Limit | translation_manager.py:87-88 | A cap of `None` or 0 means every entry is considered. A positive cap considers the first `min(cap, n)` entries. |
| Manager.DispatchFlags | translation_manager.py:94-95 | Among the considered entries, exactly those with a non-blank `msgid` are sent. |
| Manager.BatchSlots | translation_manager.py:114-125 | A batch always contributes one slot per entry. A batch whose translator call raised contributes only `None`s. |
| Manager.KeepNonBlank | translation_manager.py:93-98 | The entries to process are the non-blank ones, in order. Each of them is captured, and entries with a blank `msgid` are untouched. |
| Manager.WriteBack | translation_manager.py:119-122 | Pairing entries with slots (up to the shorter list), an entry changes only when its slot holds a result, and then it stores that result. The count is the number of such slots. |
| Manager.CollectPending | translation_manager.py:87-98 | The capped and filtered list sends exactly `DispatchedTexts`, in order, and has captured the baselines of its entries. |
| Manager.SendBatch | translation_manager.py:110-125 | One batch takes the slots `BatchSlots` gives. Its entries store the results and the count grows by the number of results. Every other entry is unchanged. |
| Manager.SendBatches | translation_manager.py:104-134 | The batch loop applies, batch by batch, the slots of `Batches(texts, size)`. The count is the number of results. |
| Manager.TranslateEntriesSpec | translation_manager.py:81-134 | The entries after `translate_entries` and the count it returns: a dispatched entry is captured and stores the result in its slot when there is one, every other entry is unchanged, and the count is the number of results. `RunChangesOnlySlots`, `RunCountBound`, `RunNoop` and `RunMarksModified` state its properties. |
| Manager.TranslateEntries | translation_manager.py:81-134 | The entries end in the state `TranslateEntriesSpec` gives, and the returned count is its count. |
| Seqs.BatchesCover | translation_manager.py:109-111 | The batches are non-empty, at most `BATCH_SIZE` long, and all but the last exactly `BATCH_SIZE` long. Concatenated, they are the filtered list exactly, in order. |
| Seqs.BatchAt | translation_manager.py:109-111 | Batch `k` is the slice `[k*size : (k+1)*size]`, clipped to the list. |
| Manager.DispatchedAligned | translation_manager.py:93-112 | There is exactly one slot per dispatched entry. |
| Manager.RunSlotsSplit | translation_manager.py:109-116 | Batch `b` is answered by script `b`. Its slots lie between those of the earlier batches and those of the later ones. |
| Manager.RunChangesOnlySlots | translation_manager.py:87-122 | No `msgid` changes. Entries beyond the cap, or with a blank `msgid`, are unchanged. A dispatched entry of rank `r` sends its own `msgid` and gets its baseline captured. Its `msgstr` becomes the result in slot `r` only when there is one. |
| Manager.RunCountBound | translation_manager.py:104-134 | The count is the number of slots holding a result. That is at most the number of entries sent, which is at most the number considered. |
| Manager.RunNoop | translation_manager.py:83-102 | With no entries, or only blank ones among those considered, nothing changes and the count is 0. |
| Manager.RunMarksModified | translation_manager.py:119-121 | An entry that received a result is listed as modified, unless its baseline already held that very result. |
| PyStr.Strip | translation_manager.py:95 | `str.strip()`: the characters for which `str.isspace()` holds are removed from both ends. `StripShape` and `StripEmptyIffBlank` state its properties. |
| PyStr.StripShape | translation_manager.py:95 | `s.strip()` is the slice of `s` left after removing a whitespace-only prefix and a whitespace-only suffix, and it neither starts nor ends with whitespace. |
| PyStr.StripEmptyIffBlank | translation_manager.py:95 | `s.strip()` is empty exactly when `s` is whitespace only. |
| PyStr.PyInt | translation_manager.py:262 | `int()` on a string: surrounding whitespace, an optional sign, then digits that single underscores may separate, with at most 4300 digits; `ValueError` (here `None`) otherwise. |
| PyStr.PyIntDecimal | translation_manager.py:262 | `int(str(n)) == n` for every integer `n` with at most 4300 digits. |
| PyStr.PyIntTooLong | translation_manager.py:262 | `int()` raises `ValueError` for a digit group, signed or not, of more than 4300 digits. |
| Manager.ParseCapAnswer | translation_manager.py:259-264 | The answer to the cap prompt: empty after stripping means no cap, 0 cancels, another integer is the cap, and anything `int()` rejects is invalid. |
| Manager.ParseCapAnswerDecimal | translation_manager.py:259-264 | A blank answer translates everything. A typed 0 cancels. Any other typed integer within the digit limit becomes the cap. |
| Manager.ParseCapAnswerTooLong | translation_manager.py:261-274 | A typed number of more than 4300 digits is reported as invalid input and nothing is translated. |
| Manager.TranslateMenuStep | translation_manager.py:252-274 | With nothing untranslated, nothing happens. A cancel changes nothing, and neither does an answer `int()` rejects. Otherwise the untranslated entries end as `TranslateEntriesSpec` says, and every other entry is unchanged. |

## Left out

- Logging, the tqdm progress bar, printing and reading user input.
  - The answers the user types are parameters.
  - The menu loop of `process_file`, `print_stats`, `print_untranslated`, `get_po_file_path` and `run` only talk to the user.
  - Only the cap prompt of menu choice 3 and the edit step of `view_and_edit_unsaved` are modelled.
- Backups and the `_translated.po` work-file copy, because they are filesystem operations.
- `process_file` also gives up on a catalog that parses to zero entries. It does so because an empty `POFile` is falsy, and this is not modelled.
- polib parsing and `po.save`, which are a foreign library.
  - Loading receives the parsed entries, or `None` for a parse error.
  - Saving receives the write's success as a boolean.
- The Gemini client, `genai.configure` and the network call. They are the oracle script described above.
- `json.loads` and `json.dumps`.
  - An attempt yields the decoded value or a decode error directly.
  - JSON numbers are exact reals, so Python's equality of `True` with `1` plays no part.
- The literal prompt text. Only the request list embedded in the prompt is modelled.
- `time.sleep`: the model records the sleep durations instead of sleeping.
- Catalog.StatsConsistent: the percentage is the exact quotient `translated / total * 100`, and the rounding to two decimals is not modelled, because it is floating point.
- The exit check against `po.percent_translated()`, because it combines floating point with a library call.
- Fuzzy flags, `msgstr_plural`, and cancelling between batches, because none of them appear in these components.
- Manager.TranslateEntries: requires distinct entry objects. A catalog holds each entry object once, so the list handed to the driver never has repeats.
- Manager.TranslateEntries: requires `batchSize > 0`. `range(0, n, 0)` raises `ValueError`, and the translator's batch size is the constant 10.
- Manager.TranslateEntries: the driver's `except` clause around `translate_batch` is modelled as a batch yielding only `None`s. `StringBatchReturns` shows it cannot fire, because the driver sends bare strings.
- `translate_entries` stores the whole result dict (`{'type', 'text'}` or `{'type', 'forms'}`) in `msgstr`. The model follows this: a stored result is a `MsgStr.Stored` value, and it counts as translated.
  - Printing such an entry in `view_and_edit_unsaved` (`msgstr[:80]`) would raise.
  - Printing is not modelled.
- Behaviour of the code that the model keeps:
  - Statistics count every entry, with no fuzzy or empty-`msgid` exclusion.
  - Plural decoding does not check for the four plural keys.
  - Baselines are reset before the write is attempted.
  - A response element that is not a JSON object fails the whole attempt, because `.get` raises and the generic error path runs. It does not yield a `None` slot.
  - A response that is not a list and has no `len()` fails while logging the length mismatch. It then takes the generic error path, with the same delay as a shape mismatch.
- PyStr.PyInt: `int()` accepts only ASCII digits here. The Unicode decimal digits Python also accepts are not modelled.
- PyStr.PyInt: the digit limit is Python's default of 4300. Changing it through `sys.set_int_max_str_digits` or `PYTHONINTMAXSTRDIGITS` is not modelled.
