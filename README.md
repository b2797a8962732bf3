# Speech recorder: a verified model of its processing pipeline

The speech recorder is a Django site where speakers read short text prompts
aloud and upload their recordings, plus two client scripts that fetch the
recordings from the server's API, convert and trim them, measure a clarity
score and a background-noise level, and post the metrics back. A management
command fills the prompt table with English words.

This project models the deterministic logic around the audio libraries,
the HTTP client and the ORM:

- **Paths and URLs** (`Paths`, `ScriptSteps`, `Records`): pathlib's
  `stem`/`suffix`/`with_suffix`/`with_stem`/`with_name`, `os.path.basename`
  and `os.path.join`; the converted `.wav` path, the `_trimmed` sibling, the
  `_metadata.json` sidecar, the download destination, locator resolution
  against `SERVER_URL`, and the upload path `recordings/<prompt id>/<name>`.
- **Metric post-processing** (`Audio`, `ScriptSteps`, `RecordViews`): the
  clarity clamp `min(max(rms / 0.1, 0), 1)`, rounding, the scripts' four-key
  metadata dict whose noise level equals its RMS, and the server view's noise
  level taken over the signed samples below 0.01.
- **The server** (`Records`, `RecordViews`): the database as a class holding
  the two tables (prompt texts unique), the upload form's validation chain,
  the per-row processing pipeline with its conversion, trimming, measuring and
  cleanup over a modelled filesystem, the batch view where each row runs in its
  own transaction and the first failure ends the batch, and the metadata update
  API that saves records one by one and stops at the first unknown id.
- **The two scripts** (`ScriptSteps`, `PasScript`, `ProcessAudioScript`):
  the helpers they share, `pas.py`'s sidecar writing and promotion, and each
  script's `main`: which fetched items end up in the uploaded list, in fetch
  order, and when nothing is uploaded.
- **The prompt loader** (`LoadPrompts`): `text.split()`, deduplication, and the
  loop that partitions the words into created, already present and invalid.

The filesystem is a `Disk` object (`files: map<Path, File>`, the set of
directories, and the paths that cannot be opened for writing). Decoding,
encoding and librosa's analysis are oracle functions carried in `Codec` and
`Dsp`; the server's answer to a download is a function `get` from URL to the
streamed chunks (None when requests raises); the English dictionary is a
predicate `isEnglish`. `Batch.Collected` turns "what each fetched item
contributed" into the uploaded list, and the scripts' `Run` methods state
their result through it.

Behaviours of the code as written, stated and proved in the model:

- A relative locator is glued to the server address without a separator
  (`ScriptSteps.RelativeLocatorNotSeparated`); one without any `/` gives a
  local name starting with `127.0.0.1:8000` (`ScriptSteps.DownloadName`).
- `pas.py` passes the downloaded file to `save_audio_with_metadata`, which
  already lies at the promotion destination, so it is never renamed and the
  entry names the untrimmed download (`PasScript.HandleItem`, `PasScript.EntryFor`).
- `pas.py`'s entries carry no `id`: the server would answer 400 at the first
  one and change nothing (`PasScript.EntriesRejectedByServer`).
- `process_audio.py` also posts items whose processing failed, with `{}`; the
  server then stores 0 for both metrics and marks the row processed
  (`ProcessAudioScript.EmptyMetadataStoredAsZeros`).
- The server view deletes the file a successfully processed row points at when
  the upload was exactly `.wav` or was converted
  (`RecordViews.ProcessedAudioIsDeleted`); an upload ending in `.WAV` is not
  converted but `<stem>.wav` is loaded, so it fails
  (`RecordViews.MixedCaseWavFails`).
- The upload form never consults the extension whitelist: `Model.save()` runs
  no validators (`RecordViews.WhitelistNotEnforced`), and a `text_id` that
  `int()` refuses raises an uncaught ValueError (`RecordViews.CheckUpload`).
  `int()` is lenient: ` +7` with a trailing newline and `0_7` select prompt 7,
  while `-1` is reported as an invalid prompt (`RecordViews.LenientPromptIds`).
- The view runs ffmpeg without `-y`, so conversion fails when `<stem>.wav`
  already exists (`RecordViews.ConvertStage`). Since a failed run leaves its
  converted WAV behind, every later run of that row fails at conversion
  (`RecordViews.RetryAfterFailureFails`).
- A locator whose last component is empty, `.` or `..` (one ending in `/`,
  say) makes the download's local path a directory; once the server answers,
  `open` raises an OSError that `download_audio_file` does not catch, and the
  script stops (`ScriptSteps.TrailingSlashCrashes`, `Crashed` in the `Run`
  methods).

Further behaviours of the code:

- Per-item failures abort a batch in two places: the server view answers 500
  at the first row whose processing raises (`RecordViews.ProcessAudioView`),
  and a script stops when a download's local file cannot be opened (`Crashed`
  in `PasScript.Run` and `ProcessAudioScript.Run`).
- The server view re-raises a trimming failure instead of falling back to the
  untrimmed file (`RecordViews.FinishStage`); only the scripts fall back
  (`ScriptSteps.TrimSilence`).
- Intermediate files are deleted only after success, not on every exit path
  (`RecordViews.FailureKeepsConversion`).
- `process_audio.py` does not exclude items whose metrics failed: they are
  posted with `{}` (`ProcessAudioScript.HandleItem`).
- The scripts' metadata dict has the keys `Duration (seconds)`,
  `RMS (Root Mean Square Energy)`, `Speech Clarity Score` and
  `Background Noise Level` (`ScriptSteps.ExtractAudioMetadata`).
- The view processes every row, processed or not, and the update API does not
  roll back the records saved before an unknown id.

## Model

| member | source | states |
|---|---|---|
| Paths.Suffix | SPEECH/recorder/pas.py:74 | the suffix is empty, or a dot followed by at least one character and no further dot |
| Paths.StemSuffix | SPEECH/recorder/pas.py:114 | stem and suffix concatenate back to the name; the stem is empty only for an empty name |
| Paths.SplitJoined | SPEECH/recorder/pas.py:73 | a nonempty stem plus a dotted, dot-free extension splits back into exactly that stem and suffix |
| Paths.WithWavSuffixFixed | SPEECH/recorder/pas.py:73 | `with_suffix('.wav')` returns the same path exactly when the suffix already is `.wav` |
| Paths.ExactWavIsWavName | SPEECH/recorder/pas.py:74 | a name whose suffix is `.wav` passes the case-insensitive `.wav` test |
| Paths.Basename | SPEECH/recorder/pas.py:45 | the basename is what follows the last slash: slash-free, the whole string when there is no slash, and preceded by a slash otherwise |
| Paths.BasenameAfterSlash | SPEECH/recorder/pas.py:45 | the basename of `head/tail`, with a slash-free tail, is the tail |
| Paths.Join | SPEECH/recorder/record/models.py:6 | `os.path.join`: an absolute second part replaces the first; otherwise a `/` is inserted exactly when the first part is non-empty and does not end in `/` |
| Decimal.ToDecimal | SPEECH/recorder/record/models.py:6 | `str(id)` is a nonempty digit string without a leading zero |
| Decimal.ParseDecimal | SPEECH/recorder/record/models.py:6 | a string is read as a number exactly when it is a nonempty string of ASCII digits |
| Decimal.ParseToDecimal | SPEECH/recorder/record/models.py:6 | parsing `str(n)` gives back n |
| Decimal.ToDecimalParse | SPEECH/recorder/record/models.py:6 | a digit string without leading zero is `str` of its value |
| Decimal.ParseIntOfDigits | SPEECH/recorder/record/views.py:39 | on a plain digit string `int()` gives the value of its digits |
| Decimal.ParseIntDecimal | SPEECH/recorder/record/views.py:39 | `int(str(n)) == n` |
| Decimal.ParseIntSign | SPEECH/recorder/record/views.py:39 | a `+` or `-` in front of digit groups keeps or negates their value |
| Decimal.ParseIntBlanks | SPEECH/recorder/record/views.py:39 | a blank before and a newline after a string do not change what `int()` reads |
| Decimal.ParseIntSigned | SPEECH/recorder/record/views.py:39 | ` +<str(n)>` with a trailing newline reads as n, `-<str(n)>` as -n |
| Decimal.ParseIntAccepts | SPEECH/recorder/record/views.py:39 | `0_7` and a no-break space before `7` read as 7, `-1` as -1 |
| Decimal.ParseIntRefuses | SPEECH/recorder/record/views.py:39 | a leading, trailing or doubled underscore, an inner blank, U+001C before a digit and the empty string are refused |
| Records.AudioFilePathShape | SPEECH/recorder/record/models.py:5-6 | a relative file name is stored as `recordings/<decimal id>/<name>`; an absolute one replaces the whole path |
| Records.UploadPathRoundTrip | SPEECH/recorder/record/models.py:5-6 | a slash-free name is stored in directory `recordings/<id>` under its own name, and the prompt id reads back from the path |
| Records.ExtensionAllowedSuffix | SPEECH/recorder/record/models.py:53 | the validator accepts a name exactly when its lower-cased suffix is `.wav`, `.mp3` or `.ogg` |
| Records.AcceptedNonWavIsMp3OrOgg | SPEECH/recorder/record/models.py:53 | an accepted name that is not a WAV name is an MP3 or OGG name |
| Records.ChoiceKeysFit | SPEECH/recorder/record/models.py:16-81 | every key of the four choice tables fits its field's `max_length` |
| Records.NewRecording | SPEECH/recorder/record/models.py:84-103 | a new row has null metrics and both flags False, with the given prompt, file and upload time |
| Records.ListingEmpty | SPEECH/recorder/record/models.py:108-109 | the newest-first listing of every row is empty exactly when the table is |
| Records.Database.CreatePrompt | SPEECH/recorder/record/models.py:8-9 | a new prompt gets the next id, the stored texts grow by exactly the new text, texts stay unique, recordings are untouched |
| Records.Database.CreateRecording | SPEECH/recorder/record/views.py:46-52 | a new row gets the next id and nothing else changes |
| Records.Database.SaveRecording | SPEECH/recorder/record/views.py:264 | saving replaces one row and keeps the tables consistent |
| Records.Database.Rollback | SPEECH/recorder/record/views.py:121-122 | leaving an atomic block by an exception restores the rows saved at its start |
| Audio.Clamp01 | SPEECH/recorder/pas.py:97 | `min(max(x, 0), 1)` lies in [0, 1], is x inside it, 0 below and 1 above |
| Audio.ClarityScore | SPEECH/recorder/pas.py:97 | clarity is 10·rms for rms in [0, 0.1], 1 above, 0 at or below 0, always in [0, 1] |
| Audio.ClarityMonotone | SPEECH/recorder/record/views.py:207 | a louder signal never gets a lower clarity |
| Audio.RoundUnitInterval | SPEECH/recorder/pas.py:103 | rounding keeps a unit-interval value in [0, 1] |
| Audio.RoundNonNegative | SPEECH/recorder/pas.py:101 | rounding a non-negative value keeps it non-negative |
| Audio.RoundError | SPEECH/recorder/pas.py:101-104 | rounding to n places moves a value by at most half a unit in the n-th place |
| ScriptSteps.ResolveUrl | SPEECH/recorder/pas.py:42-43 | the resolved locator is absolute; an absolute locator is kept, any other becomes exactly `SERVER_URL + url` |
| ScriptSteps.ResolveUrlIdempotent | SPEECH/recorder/pas.py:42-43 | resolving a resolved locator changes nothing |
| ScriptSteps.RelativeLocatorNotSeparated | SPEECH/recorder/process_audio.py:49-50 | `media/a.mp3` resolves to `http://127.0.0.1:8000media/a.mp3`; no slash is inserted |
| ScriptSteps.DownloadPath | SPEECH/recorder/pas.py:45 | the destination lies in the output directory and its name, the locator's last component, has no slash; an empty, `.` or `..` name stands for a directory, which the download refuses (`NamesDirectory`, `Crashes`) |
| ScriptSteps.DownloadName | SPEECH/recorder/process_audio.py:52 | the local name is the locator's last component when it has a slash, else `127.0.0.1:8000` + locator for a relative one |
| ScriptSteps.TrailingSlashCrashes | SPEECH/recorder/pas.py:45-49 | an answered locator ending in `/` names the output directory, so opening it raises and the script stops |
| ScriptSteps.DownloadAudioFile | SPEECH/recorder/pas.py:38-57 | the files afterwards hold the streamed chunks, in order, at the destination exactly when the request is answered and the destination is a writable file, and are unchanged otherwise; a request error returns None, a directory or unwritable destination raises |
| ScriptSteps.Converted | SPEECH/recorder/pas.py:71-77 | the result is always `with_suffix('.wav')`; a `.wav` suffix in any case changes nothing; otherwise conversion succeeds exactly when the input decodes and the WAV can be written |
| ScriptSteps.ConvertToWav | SPEECH/recorder/pas.py:71-77 | the result and the files are those Converted gives |
| ScriptSteps.TrimmedPathIsNew | SPEECH/recorder/pas.py:84 | the trim target never coincides with the trimmed file |
| ScriptSteps.Trimmed | SPEECH/recorder/pas.py:79-89 | `stem_trimmed.wav` beside the input is returned exactly when the WAV loads and the target can be written; otherwise the input path, with the files unchanged |
| ScriptSteps.TrimSilence | SPEECH/recorder/pas.py:79-89 | the result and the files are those Trimmed gives |
| ScriptSteps.ExtractAudioMetadata | SPEECH/recorder/pas.py:91-108 | the dict is empty exactly when loading or RMS fails; otherwise it has the four keys, clarity in [0, 1] and the rounded clamp of the RMS, noise equal to RMS |
| ScriptSteps.ProcessedAudio | SPEECH/recorder/pas.py:59-69 | the metadata is `{}` or a full four-key dict |
| ScriptSteps.ProcessAudio | SPEECH/recorder/process_audio.py:66-76 | the metadata returned and the files left are those ProcessedAudio gives |
| ScriptSteps.ProcessedAudioFrame | SPEECH/recorder/pas.py:59-89 | processing deletes nothing and writes at most the WAV and its trimmed sibling; every other file keeps its contents |
| ScriptSteps.ProcessedAudioSource | SPEECH/recorder/pas.py:63-65 | after a successful conversion the metadata is read from the trimmed file when the WAV loads and the target can be written, from the WAV otherwise |
| ScriptSteps.EmptyMetadataCauses | SPEECH/recorder/pas.py:59-69 | a failed conversion gives `{}` with the files unchanged, and a WAV that does not load gives `{}` |
| PasScript.SidecarPathShape | SPEECH/recorder/pas.py:114-117 | the sidecar is `output_dir/<stem>_metadata.json`: stem plus `_metadata`, suffix `.json` |
| PasScript.SidecarNotAudio | SPEECH/recorder/pas.py:113-125 | the sidecar never overwrites the audio file's promoted location |
| PasScript.SaveAudioWithMetadata | SPEECH/recorder/pas.py:110-133 | the sidecar is written unconditionally; the audio is renamed into the output directory only when nothing is there; any failure gives None with the files as left by then |
| PasScript.ItemOutcomeSlot | SPEECH/recorder/pas.py:159-174 | an item stops the script exactly when its download raises; otherwise it contributes an entry exactly when the download succeeds, the metadata is non-empty and the sidecar can be written, carrying that metadata; the kept entry's audio file and sidecar exist, the sidecar holding prompt and metadata |
| PasScript.HandleItem | SPEECH/recorder/pas.py:159-174 | the result and the files are those ItemOutcome gives: download, process, and save and keep only non-empty metadata; the entry names the downloaded file, left in place |
| PasScript.Run | SPEECH/recorder/pas.py:149-177 | an empty fetch does nothing; otherwise items are handled in fetch order, each from the files the previous one left, contributing as ItemOutcomeSlot says; the list is the kept entries in order, and the upload (which raises) happens exactly when it is non-empty; an unopenable download stops the script |
| PasScript.EntriesRejectedByServer | SPEECH/recorder/pas.py:169-174 | the entries carry no id, so the update API would answer 400 and change no row |
| ProcessAudioScript.ToWire | SPEECH/recorder/process_audio.py:149-152 | the server reads an entry's id and metadata back unchanged |
| ProcessAudioScript.ItemOutcomeSlot | SPEECH/recorder/process_audio.py:144-152 | an item stops the script exactly when its download raises; otherwise it contributes an entry exactly when the download succeeds, with its id and the metadata processing returned, `{}` included; an item downloading nothing changes no file |
| ProcessAudioScript.HandleItem | SPEECH/recorder/process_audio.py:145-152 | the result and the files are those ItemOutcome gives: download, then process and keep every downloaded item |
| ProcessAudioScript.Run | SPEECH/recorder/process_audio.py:134-155 | an empty fetch does nothing; otherwise items are handled in fetch order, each from the files the previous one left, contributing as ItemOutcomeSlot says; the post carries one record per entry in order and happens exactly when the list is non-empty; an unopenable download stops the script |
| ProcessAudioScript.EmptyMetadataStoredAsZeros | SPEECH/recorder/process_audio.py:148-152 | an entry with `{}` metadata is stored as 0/0 and marks its row processed |
| ProcessAudioScript.UploadMarksEveryRow | SPEECH/recorder/process_audio.py:154-155 | when every id exists the server answers 200 and marks every posted row processed |
| Batch.Collected | SPEECH/recorder/pas.py:158-174 | the collected list is no longer than the items, and every entry in it came from some item |
| Batch.CollectedAt | SPEECH/recorder/pas.py:169 | item i's entry sits at position "entries before i" of the list |
| Batch.CollectedInOrder | SPEECH/recorder/process_audio.py:144-152 | entries keep the fetch order of their items |
| Batch.CollectedEmpty | SPEECH/recorder/pas.py:176-177 | the list is empty exactly when no item produced an entry |
| Batch.CollectedAll | SPEECH/recorder/process_audio.py:144-152 | when every item produces an entry, none is lost |
| RecordViews.CheckUpload | SPEECH/recorder/record/views.py:24-42 | a post is accepted exactly when text id and file are present and `int()` reads the id as a key of the prompt table; the accepted id is that value |
| RecordViews.ValidationOrder | SPEECH/recorder/record/views.py:30-42 | a missing text id is reported first, then a missing file, then an id `int()` refuses (500), then an id naming no prompt, a negative one included |
| RecordViews.ParsedVerdict | SPEECH/recorder/record/views.py:38-42 | with both fields present the verdict depends on the id only through `int()`: accepted for a non-negative key of the table, an invalid prompt otherwise |
| RecordViews.LenientPromptIds | SPEECH/recorder/record/views.py:38-42 | ` +7` with a trailing newline and `0_7` select prompt 7, `-1` is an invalid prompt and `7_` raises |
| RecordViews.WhitelistNotEnforced | SPEECH/recorder/record/views.py:46-52 | the verdict is the same whatever the uploaded file is called; a `.flac` upload fails the extension whitelist yet is accepted |
| RecordViews.UploadedPath | SPEECH/recorder/record/views.py:46-52 | the upload is stored under `recordings/<prompt id>/` with its base name, and the prompt id reads back from the path |
| RecordViews.PostRecording | SPEECH/recorder/record/views.py:22-61 | a rejected post changes nothing; an accepted one writes the file and creates exactly one default row, unless the write fails |
| RecordViews.ConvertedPathShape | SPEECH/recorder/record/views.py:138-139 | the converted path keeps directory and stem and has suffix `.wav` |
| RecordViews.ConvertedPathOfWav | SPEECH/recorder/record/views.py:139 | a `.wav` upload is its own converted path |
| RecordViews.ConvertedPathMoves | SPEECH/recorder/record/views.py:139-142 | when conversion runs, the converted path differs from the original |
| RecordViews.TrimmedPathShape | SPEECH/recorder/record/views.py:192 | the trim target is beside the WAV, stem plus `_trimmed`, suffix kept |
| RecordViews.TrimTargetsAgree | SPEECH/recorder/record/views.py:192 | for a converted WAV the view and the scripts choose the same trim target |
| RecordViews.QuietSamples | SPEECH/recorder/record/views.py:208 | the noise samples are exactly the signed values below 0.01, and there are no more of them than samples |
| RecordViews.QuietSamplesAppend | SPEECH/recorder/record/views.py:208 | selecting quiet samples commutes with concatenation, so they keep the signal's order |
| RecordViews.QuietSamplesCount | SPEECH/recorder/record/views.py:208 | each sample below 0.01 is kept as often as it occurs, and no other sample is kept |
| RecordViews.MeasureTrimmed | SPEECH/recorder/record/views.py:202-212 | metrics fail exactly when loading or an RMS fails; clarity is the rounded clamp of the full RMS, noise the rounded RMS of the quiet samples |
| RecordViews.ConvertStage | SPEECH/recorder/record/views.py:138-185 | a WAV-named upload is left alone; otherwise the row is repointed at the converted path, and conversion fails when `<stem>.wav` already exists (ffmpeg runs without `-y`) |
| RecordViews.TrimWritten | SPEECH/recorder/record/views.py:187-193 | trimming succeeds exactly when the WAV loads and its `_trimmed` sibling can be written, and then adds exactly that trimmed file |
| RecordViews.FinishStage | SPEECH/recorder/record/views.py:150-160 | success stores both metrics, clarity in [0, 1], sets the processed flag, changes no other field and deletes both intermediates; a failed load changes nothing |
| RecordViews.FinishStageMeasures | SPEECH/recorder/record/views.py:150-160 | finishing succeeds exactly when trimming and measuring the trimmed file do; the stored clarity and noise are exactly MeasureTrimmed's on the trimmed file, the files are the trimmed ones minus both intermediates, and a failure leaves the files written before the exception |
| RecordViews.ConvertStageFrame | SPEECH/recorder/record/views.py:141-148 | conversion writes the converted path and nothing else |
| RecordViews.FinishStageFrame | SPEECH/recorder/record/views.py:150-160 | trimming and cleanup touch only the converted file and its trimmed sibling; a failure deletes nothing |
| RecordViews.ProcessedRow | SPEECH/recorder/record/views.py:130-160 | a successful run leaves a processed row, repointed exactly when conversion ran, with both intermediates deleted, whose clarity and noise are MeasureTrimmed's on the trimmed converted file |
| RecordViews.ProcessFileFrame | SPEECH/recorder/record/views.py:130-164 | processing a row touches only the converted file and its trimmed sibling; the trimmed file survives only a failure |
| RecordViews.ProcessedAudioIsDeleted | SPEECH/recorder/record/views.py:147-160 | after success the row points at a deleted file when the upload was exactly `.wav` or was converted |
| RecordViews.ConvertedOriginalKept | SPEECH/recorder/record/views.py:141-160 | a converted upload's original file is never deleted or changed |
| RecordViews.MixedCaseWavFails | SPEECH/recorder/record/views.py:139-151 | an upload with a `.WAV`-like suffix and no `<stem>.wav` file fails and changes nothing |
| RecordViews.FailureKeepsConversion | SPEECH/recorder/record/views.py:156-164 | a run that fails after converting leaves the converted WAV behind |
| RecordViews.RetryAfterFailureFails | SPEECH/recorder/record/views.py:141-185 | after a run that failed past the conversion, running the same row again fails at the conversion with nothing changed |
| RecordViews.ProcessAudioFile | SPEECH/recorder/record/views.py:130-164 | the files and rows after the call are those of the conversion and finishing stages; an exception keeps the repointed row |
| RecordViews.ProcessAtomically | SPEECH/recorder/record/views.py:120-122 | a row is committed processed only on success; on failure the rows roll back while written files stay |
| RecordViews.ConvertToWav | SPEECH/recorder/record/views.py:141-185 | conversion and repointing happen as ConvertStage says, saved to the row; an existing `<stem>.wav` makes it fail with nothing changed |
| RecordViews.TrimAndMeasure | SPEECH/recorder/record/views.py:150-160 | trimming, measuring, saving and cleanup happen as FinishStage says |
| RecordViews.ProcessAudioView | SPEECH/recorder/record/views.py:107-127 | "nothing to process" exactly for an empty table; otherwise every row is processed, or the first failure aborts with the rows before it processed and the rest unchanged; the files each row saw chain through ProcessFile's outcomes as in ProcessEach; no row is created or deleted and the directories stay |
| RecordViews.ProcessEach | SPEECH/recorder/record/views.py:120-127 | the loop processes rows in listing order: each row before the stop gets ProcessFile's Done outcome on its original row and on the files the previous row left, the row that stops the loop gets its Failed outcome and its files stay on disk, and that row and the later ones keep their stored values; the set of rows and the directories stay as they were |
| RecordViews.MissingKeysDefaultToZero | SPEECH/recorder/record/views.py:258-263 | missing metric keys are stored as 0 and the row is marked processed |
| RecordViews.ApplyUpdates | SPEECH/recorder/record/views.py:256-270 | the answer is 200 or 400, no row appears or disappears, and prompt, file and upload time never change |
| RecordViews.UpdatesSucceedIffAllKnown | SPEECH/recorder/record/views.py:256-266 | the answer is 200 exactly when every record names an existing row |
| RecordViews.UpdatesStopAtUnknown | SPEECH/recorder/record/views.py:256-270 | at the first unknown id the answer is 400 with the earlier records' saves kept |
| RecordViews.UpdatesTouchOnlyNamedRows | SPEECH/recorder/record/views.py:256-264 | rows no record names are unchanged; after a 200 every named row is processed |
| RecordViews.ProcessedStays | SPEECH/recorder/record/views.py:263 | a row marked processed stays marked through further records |
| RecordViews.IdlessBodyRejected | SPEECH/recorder/record/views.py:257-260 | a body whose first record has no id is refused with 400 before any change |
| RecordViews.UpdateAudioMetadata | SPEECH/recorder/record/views.py:253-270 | the handler's rows and status are those ApplyUpdates gives |
| LoadPrompts.TokenLength | SPEECH/recorder/record/management/commands/r.py:90 | a token is the run of non-whitespace characters up to the first whitespace |
| LoadPrompts.Split | SPEECH/recorder/record/management/commands/r.py:90 | every piece of the split is a nonempty word without whitespace |
| LoadPrompts.SplitLosesOnlySpace | SPEECH/recorder/record/management/commands/r.py:90 | the words concatenated are the text with its whitespace removed |
| LoadPrompts.SplitAtSpace | SPEECH/recorder/record/management/commands/r.py:90 | whitespace separates words: splitting `s c t` gives the words of s then those of t |
| LoadPrompts.UniqueWords | SPEECH/recorder/record/management/commands/r.py:91 | the deduplicated candidates are words |
| LoadPrompts.WordsPartition | SPEECH/recorder/record/management/commands/r.py:97-104 | each unique word is exactly one of created, already present, invalid |
| LoadPrompts.VisitStep | SPEECH/recorder/record/management/commands/r.py:97-104 | visiting a word puts it in the valid or the invalid set, never both |
| LoadPrompts.Visit | SPEECH/recorder/record/management/commands/r.py:98-104 | a row is created exactly for a valid word not yet stored; existing prompts are kept |
| LoadPrompts.Enumerate | SPEECH/recorder/record/management/commands/r.py:97 | the loop visits every unique word exactly once |
| LoadPrompts.Handle | SPEECH/recorder/record/management/commands/r.py:86-109 | the store gains exactly the valid words, no prompt is lost, `added_count` counts the new valid words, the invalid list holds each rejected word once, and the warning appears exactly when it is non-empty |

## Left out

- Decoding, encoding, resampling and librosa's analysis (`load`, `effects.trim(top_db=30)`, `feature.rms`, `get_duration`) are oracle functions; the ffmpeg arguments (44100 Hz, mono, 16-bit PCM) are not modelled.
- Audio.Round: rounds half up on exact reals; Python's `round` on binary floats (ties to even, representation error) is not modelled.
- ScriptSteps.ExtractAudioMetadata: the duration and RMS values themselves are oracle results; only the dict's shape, the clarity formula and the noise-equals-RMS equality are stated.
- Network I/O: `fetch_audio_files` is the `fetched` parameter (empty when the request fails), a download is the `get` oracle, and posting the metadata is the `Uploaded`/`UploadRaised` outcome; HTTP status handling, chunk sizes and the server's answer to the scripts' post are not modelled.
- PasScript.Run: the TypeError that serialising `Path` objects raises inside `upload_metadata` is the `UploadRaised` outcome; nothing after it is modelled.
- `Path.resolve()` and `relative_to(MEDIA_ROOT)`: paths are kept relative to one root, so resolution and the repointed name coincide.
- The `output_path.parent.mkdir` call in the view's `convert_to_wav` is not modelled: the converted file lies in the original's directory, which exists.
- Django's storage renames an upload whose name is taken; here the write overwrites. Upload names are reduced to their base name, as Django does, without its further sanitising.
- `str.lower()` is modelled for ASCII letters only; `str.split()` and `isspace` follow Python's whitespace set.
- LoadPrompts.Handle: the order in which a Python set is iterated is any enumeration of the words (`Enumerate`), so the order of the invalid-word list is not determined; the text is a parameter rather than the fixed literal.
- The 255-character limit and the `unique` constraint's database enforcement on prompt text: `objects.create` does not validate length, and the model keeps texts unique by checking before creating, as the loader does.
- Django rendering, `messages`, redirects as HTTP responses and logging are represented only by the outcome values.
- `RecordAudioView.get`, `RecordListView`, `TextPromptAudioFilesView` and `AudioFileListView` only query and render; they are not modelled.
- `json_serialize` (numpy type dispatch) and logging configuration are not modelled.
- record/task.py, record/serializers.py, record/urls.py and record/forms.py are not part of this model.
- Labelling fields no operation sets (quality, accent, gender, age group, recording environment) are not fields of `Recording`; only their choice tables are.
- Concurrency: each operation runs alone; a transaction rollback restores rows only, never files.
- Decimal.ParseInt: the non-ASCII Unicode decimal digits `int()` also accepts (Arabic-Indic, full-width and so on) are not recognised; such an id is modelled as refused.
- RecordViews.CheckUpload: an id beyond the database's 64-bit integer range is treated as naming no prompt; what the ORM does with such a value depends on the Django version.
- RecordViews.ConvertStage: ffmpeg's overwrite question is modelled as refused; when the server's standard input is a terminal, ffmpeg would instead wait for an answer.
- ScriptSteps.DownloadAudioFile: the `get` oracle has no outcome for a `RequestException` raised in the middle of the chunk stream, which would leave a partial file at the destination and return None.
- ScriptSteps.Trimmed and RecordViews.TrimWritten: `Dsp.trim` is total, so a `librosa.effects.trim` that raises is not modelled; the scripts would fall back to the input path and the view would re-raise.
