# srtgen in Dafny

srtgen turns the audio of a video into subtitle files. It transcribes the
audio with Whisper in the spoken language, translates it to English with
Whisper, and translates the English subtitles to a chosen language with the
NLLB-200 model. There are two front ends:

- a command-line tool, `mkv_transcribe.py`;
- a small web server, `app.py`. It runs jobs on background threads with a
  limit on how many run at once, and lets clients follow and cancel them.

This project models the logic of both in Dafny and proves properties of that
model.

- `text.dfy` (`Text`): the Python string operations the code relies on.
  These are `strip`, `find`, `split`, `join`, `upper`, `isdigit`, the
  `{n:0Nd}` format and `int()`, each over `seq<char>`. The module also holds
  the split/join round trip.
- `paths.dfy` (`Paths`): `os.path.join`, `splitext` and `basename` on
  POSIX paths.
- `srt_time.dfy` (`SrtTime`): `format_srt_time`, and
  `adjust_timestamp_for_length`, which stretches the end of a cue when its
  translation is longer. Times are integer milliseconds.
- `srt_file.dfy` (`SrtFile`): the cue writes of `save_translated_srt` and
  the block parser of `translate_srt_content`. It proves that a written file
  parses back to the cues written.
- `whisper_srt.dfy` (`WhisperSrt`): `generate_srt_from_whisper`. This is
  the filter for annotations, empty text and short text, the choice of word
  or segment timestamps, and the numbering of the cues.
- `translation.dfy` (`Translation`): the NLLB language map, the guard of
  `translate_text_nllb`, and `translate_srt_content`. The batching is five
  blocks at a time. The texts of a batch are joined with `" | "`, and each
  block is translated on its own when the pieces do not match.
- `cli.dfy` (`Cli`): `main`'s check for existing files, and the stages it
  runs once the language is detected.
- `jobs.dfy` (`Jobs`): the state of the web server as values, with one
  step function for each request and each worker step.
  - The state is `jobs`, `job_counter`, `job_cancel_flags` and
    `active_threads`, together with where each worker thread is.
  - `Inv` is the invariant that ties each job's entry to its worker.
- `job_props.dfy` (`JobProps`): proofs that every step keeps `Inv` and
  never lowers a job's progress. It also states what a completed job
  reports, and two races of the code as written:
  - a cancel made while a job waits for a slot can be lost;
  - completion overwrites a cancel.
- `job_server.dfy` (`JobServer`): the state as a class, `JobTable`. Its
  methods update the fields in place. Each method's contract ties the new
  state to the step function and keeps `Inv`.
- `srt_info.dfy` (`SrtInfo`): how `read_srt_file` picks a subtitle file's
  language. It takes the language from a `name.xx.srt` file name, and
  otherwise runs detection on a sample of the text lines.

The external programs enter as parameters or as success flags: ffmpeg,
Whisper, NLLB, langdetect, chardet and the file system.

- The file system is the set of paths that exist.
- The translator is a function from the text and the two language codes to
  the translation.
- An exception from ffmpeg, Whisper or NLLB is a step's `ok` flag set to
  false, together with the error message.

The web server's threads are modelled as atomic steps. A worker thread moves
through the phases `Waiting`, `Started`, `AudioReady`, `Transcribed`,
`EnglishDone`, `TargetDone` and `Exited`. Each of its steps is one
transition of the server state. The request handlers are transitions too, so
any interleaving of requests and worker steps is a sequence of these
transitions.

## Model

| member | source | states |
|---|---|---|
| SrtTime.FormatSrtTime | mkv_transcribe.py:42-51 | defines `format_srt_time` on milliseconds as `HH:MM:SS,mmm`; ClockOf, ParseFormatSrtTime, FormatSrtTimeOneLine and FormatSrtTimeNoArrow state its properties |
| SrtTime.ClockOf | mkv_transcribe.py:42-49 | the hours, minutes, seconds and milliseconds of a time add back up to it, with minutes and seconds below 60, milliseconds below 1000, and non-negative hours for a non-negative time |
| SrtTime.ParseFormatSrtTime | mkv_transcribe.py:42-51 | the end-time parse of `adjust_timestamp_for_length` reads every time written by `format_srt_time` back as the same number of milliseconds |
| SrtTime.ParseFormatClock | mkv_transcribe.py:262-271 | the parse of `HH:MM:SS,mmm` recovers the total milliseconds of the fields that were formatted |
| SrtTime.FormatSrtTimeOneLine | mkv_transcribe.py:51 | a formatted time is non-empty and holds no newline |
| SrtTime.FormatSrtTimeNoArrow | mkv_transcribe.py:51 | a formatted time never contains the `" --> "` separator, so it cannot disturb the split of a timestamp line |
| SrtTime.ExtensionMs | mkv_transcribe.py:256-274 | an extension exists exactly when the translated length exceeds 1.05 times the original length (taken as at least 1); it lies between 1 and 2000 ms, and is 2000 ms once the translation is at least twice as long |
| SrtTime.AdjustTimestamp | mkv_transcribe.py:245-289 | defines `adjust_timestamp_for_length`: when the line is `start --> end`, the translation is long enough and the end reads as `HH:MM:SS,mmm`, the end moves later by ExtensionMs; otherwise the line is returned as given; AdjustUnchanged, AdjustExtendsEnd and ExtendEndShifts state its properties |
| SrtTime.AdjustUnchanged | mkv_transcribe.py:249-289 | the timestamp is returned unchanged when it does not split into two parts at `" --> "`, when the translation is not more than 5% longer, or when the end time does not parse |
| SrtTime.AdjustExtendsEnd | mkv_transcribe.py:253-287 | when the end is extended, the start is kept and the new end reads back as strictly later than the old end, by at most 2000 ms |
| SrtTime.ExtendEndShifts | mkv_transcribe.py:262-287 | rewriting the end time keeps the start and moves the end by exactly the extension |
| SrtTime.RejoinShifted | mkv_transcribe.py:285-287 | `start --> end` with a formatted end splits back into the same start and an end that reads back as the time written |
| SrtTime.RejoinTwo | mkv_transcribe.py:249-254 | a timestamp that splits into two parts is rebuilt exactly by `f"{start} --> {end}"` |
| SrtFile.SaveTranslatedSrt | mkv_transcribe.py:292-298 | the writes are the index, the timestamp and the text of each segment, in segment order |
| SrtFile.WritesOf | mkv_transcribe.py:295-298 | exactly three writes per segment |
| SrtFile.WritesSpellText | mkv_transcribe.py:294-298 | the file's text is each block followed by a blank line |
| SrtFile.ParseSrt | mkv_transcribe.py:194-211 | defines the parse of an SRT file: the stripped content split on blank lines, one cue per block of at least three lines; ParseBlock, ParseBlocksAppend, ParseEmpty and SaveThenParse state its properties |
| SrtFile.Blocks | mkv_transcribe.py:194 | splitting the stripped content on blank lines gives at least one block |
| SrtFile.ParseBlock | mkv_transcribe.py:205-211 | a block yields a segment exactly when it has at least three lines |
| SrtFile.BlockLines | mkv_transcribe.py:205-209 | the lines of a well-formed block are its index, its timestamp and then the lines of its text |
| SrtFile.ParseBlockOf | mkv_transcribe.py:205-211 | parsing the block written for a well-formed cue gives that cue back |
| SrtFile.ParseBlocksAppend | mkv_transcribe.py:199-211 | parsing blocks batch by batch gives the same segments as parsing them all at once |
| SrtFile.ParseBlocksOf | mkv_transcribe.py:204-211 | the blocks of well-formed cues parse back to those cues, in order |
| SrtFile.StripTrailingBlankLine | mkv_transcribe.py:194 | `strip` removes the final blank line of a written file and nothing else |
| SrtFile.BlocksOfText | mkv_transcribe.py:194 | the blocks read from a written file are the blocks of the cues written |
| SrtFile.SaveThenParse | mkv_transcribe.py:292-298 | a file written by `save_translated_srt` is read back by `translate_srt_content`'s parser as the same segments |
| SrtFile.ParseEmpty | mkv_transcribe.py:194 | an empty file holds no segments |
| WhisperSrt.GenerateSrtFromWhisper | mkv_transcribe.py:301-339 | the writes are those of the kept segments, each numbered one past the cues before it, with word timestamps preferred over segment timestamps |
| WhisperSrt.SkippedStep | mkv_transcribe.py:313-324 | a segment that is empty, an annotation or shorter than 3 characters adds no cue |
| WhisperSrt.KeptStep | mkv_transcribe.py:326-339 | a kept segment adds its three writes and advances the index by one |
| WhisperSrt.SpeechCues | mkv_transcribe.py:301-339 | defines the cues `generate_srt_from_whisper` writes: the kept segments, numbered from 1; SpeechCuesNumbered, SpeechMembers, TextsAreSpeech and GeneratedReadsBack state its properties |
| WhisperSrt.SpeechCuesNumbered | mkv_transcribe.py:309-339 | cue `k` is the `k`-th kept segment, numbered `k + 1`, and there are as many cues as kept segments |
| WhisperSrt.IndicesCount | mkv_transcribe.py:309-339 | the indices written run 1, 2, … N in order |
| WhisperSrt.SpeechAppend | mkv_transcribe.py:310-324 | the filter keeps input order: the kept segments of a concatenation are the kept segments of each part |
| WhisperSrt.SpeechMembers | mkv_transcribe.py:311-324 | a segment is kept exactly when it is an input segment that passes all three filters |
| WhisperSrt.TextsAreSpeech | mkv_transcribe.py:311-324 | every cue's text is stripped, at least 3 characters long and not an annotation |
| WhisperSrt.TimestampReadsBack | mkv_transcribe.py:326-337 | the timestamp line splits into the start and the end, and they read back as the chosen start and end times |
| WhisperSrt.KeptWellFormed | mkv_transcribe.py:336-338 | the cue written for a kept segment whose text has no blank line is carried intact by the file format |
| WhisperSrt.GeneratedReadsBack | mkv_transcribe.py:336-338 | the file written by `generate_srt_from_whisper` parses back to exactly the cues generated |
| WhisperSrt.BlockWellFormed | mkv_transcribe.py:336-338 | every generated cue is well formed |
| Translation.CodesAreMapped | mkv_transcribe.py:95-157 | every lookup gives a code of the map; a listed language gets its own code on either side, and an unlisted one gets English as the source and Dutch as the target |
| Translation.TranslateText | mkv_transcribe.py:150-157 | empty or whitespace-only text is returned as it is without consulting the model; other text is translated between the mapped codes |
| Translation.TranslatedParts | mkv_transcribe.py:213-223 | one translation per text; when the joint translation does not split into as many pieces as there are texts, each text is translated on its own |
| Translation.EachTranslated | mkv_transcribe.py:223 | the fallback translates each text on its own, in order |
| Translation.BatchParts | mkv_transcribe.py:213-223 | one translation per parsed block of the batch |
| Translation.BatchSplitUsed | mkv_transcribe.py:215-222 | when the joint translation is the pieces joined by the separator, one per text, and only the last piece may end in part of a separator, those pieces are used as they are |
| Translation.ParseBatch | mkv_transcribe.py:201-211 | the batch's metadata is the parse of its blocks of at least three lines, and the texts are their texts |
| Translation.TranslateBatch | mkv_transcribe.py:213-238 | one segment per parsed block, pairing each block with its translation |
| Translation.ZipTranslated | mkv_transcribe.py:226-238 | each segment keeps its block's index, has its timestamp adjusted for the two lengths, and carries the stripped translation |
| Translation.TranslateSrtContent | mkv_transcribe.py:186-242 | the segments are those of the file's blocks, batch by batch, five blocks at a time |
| Translation.TranslateFrom | mkv_transcribe.py:199-238 | defines the batch loop of `translate_srt_content` from block `i` on, five blocks per batch; TranslateSrtContent, TranslateFromZip and TranslateKeepsBlocks state its properties |
| Translation.TranslateFromZip | mkv_transcribe.py:199-238 | the result is the parsed blocks paired with their translations, one segment per block that has at least three lines |
| Translation.TranslateKeepsBlocks | mkv_transcribe.py:186-242 | there is one segment per parsed block, with the same index, in order, and with its timestamp adjusted for the block's own text and translation |
| Cli.CheckStart | mkv_transcribe.py:356-383 | the run stops for existing files exactly when the video exists, `--overwrite` is off and one of the checked outputs exists; the paths reported all exist |
| Cli.Stages | mkv_transcribe.py:396-422 | the original transcript comes first. English is copied when English was detected and translated otherwise. NLLB runs for a given language that is neither the detected one nor English, and a copy is made when it equals the detected one. With `--original-only`, nothing follows the transcript |
| Cli.NoOverwrite | mkv_transcribe.py:365-422 | without `--overwrite`, a run that passes the checks writes only paths that did not exist, except when both the language and the detected language are empty |
| Jobs.Prefix2 | app.py:183 | `language[:2]`: the first two characters, or the whole string when it is shorter |
| Jobs.Present | app.py:180-185 | the names reported are names of candidates that exist, every existing candidate's name is among them, and none is reported exactly when none exists |
| Jobs.PresentIndices | app.py:180-185 | the positions of the existing candidates, strictly increasing, and every existing candidate's position among them |
| Jobs.PresentIndexed | app.py:180-185 | the `j`-th name reported is the name of the `j`-th existing candidate, one per existing candidate |
| Jobs.PresentNamesExact | app.py:180-185 | the names reported are exactly the basenames of the existing candidates, in candidate order, one per existing candidate; none is reported exactly when none exists |
| Jobs.Admission | app.py:169-201 | defines the checks of `transcribe` in order; AdmissionOutcome states each reply's exact condition |
| Jobs.Transcribe | app.py:160-223 | defines `transcribe` with its defaults (`en-US`, overwrite on); TranscribeKeepsInv, CreatedKeepsInv and OverwriteByDefault state its properties |
| Jobs.PollSlot | app.py:231-255 | defines one pass of the slot-waiting loop; PollSlotKeepsInv, LostCancel and CancelledWhileWaiting state its properties |
| Jobs.StopCancelled | app.py:262-264 | defines a cancel check that fires: status `cancelled`, then the `finally` block; StopCancelledKeepsInv states its property |
| Jobs.Fail | app.py:352-360 | defines the `except` block on the entry as last reported, then the `finally` block; FailKeepsInv states its property |
| Jobs.ExtractAudio | app.py:261-269 | defines the first cancel check and the audio extraction; ExtractAudioKeepsInv states its property |
| Jobs.TranscribeOriginal | app.py:277-294 | defines the original-language transcription step; TranscribeOriginalKeepsInv states its property |
| Jobs.TranslateEnglish | app.py:296-312 | defines the English stage, copied or translated; TranslateEnglishKeepsInv states its property |
| Jobs.TranslateTarget | app.py:314-338 | defines the NLLB stage, skipped or run; TranslateTargetKeepsInv states its property |
| Jobs.Complete | app.py:340-360 | defines completion or failure and the slot release; CompleteKeepsInv, CompletedOutputs and CompletionOverridesCancel state its properties |
| Jobs.Cancel | app.py:373-393 | defines `cancel_job`; CancelOutcome, CancelProgressed and CancelKeepsInv state its properties |
| Jobs.FilesInOrder | app.py:291-337 | the generated files are the original-language file first, then the English file when that stage ran, then the target file when that stage ran |
| JobProps.InitialInv | app.py:23-27 | the empty job table satisfies the invariant |
| JobProps.SlotsBounded | app.py:231-235 | under the invariant, `active_threads` is never negative, stays within the limit, and is at least the number of running jobs |
| JobProps.TranscribeKeepsInv | app.py:160-223 | a refused request changes nothing; an accepted one adds a pending job at progress 0 under the old counter, raises the counter, leaves other jobs alone and keeps the invariant |
| JobProps.AdmissionOutcome | app.py:169-201 | the reply is 400 exactly when the path is missing or empty, 404 exactly when it is given but does not exist, 409 exactly when it exists, overwrite is off and subtitles exist (listing them), 429 exactly when the checks pass with the running jobs at the limit, and otherwise a job under the current counter; with overwrite on there is never a 409 |
| JobProps.OverwriteByDefault | app.py:166 | a request that leaves out `overwrite` is never refused for existing subtitles |
| JobProps.CreatedKeepsInv | app.py:203-220 | the new job takes a fresh id, and its worker waits without a slot |
| JobProps.Advanced | app.py:253-338 | a worker step that keeps its slot, its job's file and language, and does not lower its progress keeps the invariant |
| JobProps.Released | app.py:340-360 | a worker that returns through `finally` with a matching final entry gives its slot back and keeps the invariant |
| JobProps.StopCancelledKeepsInv | app.py:262-264 | a cancel check that fires in any step that holds a slot releases it and keeps the invariant |
| JobProps.FailKeepsInv | app.py:352-360 | the `except` and `finally` blocks keep the invariant when the entry written is the job's own, with its file and language, at no lower progress |
| JobProps.CancelOutcome | app.py:373-393 | an unknown job gives 404 and a finished one 400, each changing nothing; otherwise the job is cancelled and its flag set, with worker state and slots untouched |
| JobProps.CancelProgressed | app.py:373-393 | a cancel removes no job and lowers no progress |
| JobProps.CancelKeepsInv | app.py:373-393 | a cancel keeps the invariant |
| JobProps.PollSlotKeepsInv | app.py:231-255 | taking a slot stays within the limit, and giving up while waiting takes no slot; the invariant holds |
| JobProps.ExtractAudioKeepsInv | app.py:261-269 | the cancel check and the audio-extraction step keep the invariant |
| JobProps.TranscribeOriginalKeepsInv | app.py:277-294 | the cancel check and the original-language transcription keep the invariant |
| JobProps.TranslateEnglishKeepsInv | app.py:296-312 | the English stage, skipped or run, keeps the invariant |
| JobProps.TranslateTargetKeepsInv | app.py:314-338 | the NLLB stage, skipped or run, keeps the invariant |
| JobProps.CompleteKeepsInv | app.py:340-360 | completion or failure releases the slot and keeps the invariant |
| JobProps.CompletedOutputs | app.py:340-350 | a completed job is at progress 100, lists the generated files in stage order as its output and its files, reports the detected language and holds no slot |
| JobProps.LostCancel | app.py:253-255 | a pending job cancelled while its worker waits is set running again and its cancel flag cleared once a slot is free |
| JobProps.CancelledWhileWaiting | app.py:236-240 | without a free slot, a cancelled waiting job ends cancelled without taking a slot |
| JobProps.CompletionOverridesCancel | app.py:340-350 | a job cancelled after its last cancel check still ends completed at progress 100 |
| JobServer.JobTable.constructor | app.py:23-27 | the table starts empty and valid |
| JobServer.JobTable.ExistingNames | app.py:180-185 | the loop collects the basenames of the existing candidates, in order |
| JobServer.JobTable.Admit | app.py:169-201 | the checks reply in order: no file (400), file not found (404), existing subtitles (409), too many running jobs (429), else a new job id |
| JobServer.JobTable.Transcribe | app.py:160-223 | the fields become those of the `transcribe` step, and the invariant is kept |
| JobServer.JobTable.StopCancelled | app.py:262-264 | the job is marked cancelled, the `finally` block gives the slot back and ends the worker, and the invariant is kept |
| JobServer.JobTable.Fail | app.py:352-360 | the job is marked failed with the error, the `finally` block gives the slot back and ends the worker, and the invariant is kept |
| JobServer.JobTable.PollSlot | app.py:231-255 | the fields become those of one pass of the slot-waiting loop, and the invariant is kept |
| JobServer.JobTable.ExtractAudio | app.py:261-269 | the fields become those of the first cancel check and the audio extraction, and the invariant is kept |
| JobServer.JobTable.TranscribeOriginal | app.py:277-294 | the fields become those of the original-language transcription, and the invariant is kept |
| JobServer.JobTable.TranslateEnglish | app.py:296-312 | the fields become those of the English stage, and the invariant is kept |
| JobServer.JobTable.TranslateTarget | app.py:314-338 | the fields become those of the NLLB stage, and the invariant is kept |
| JobServer.JobTable.Complete | app.py:340-360 | the fields become those of completion or failure, and the invariant is kept |
| JobServer.JobTable.CancelJob | app.py:373-393 | the fields and the reply become those of `cancel_job`, and the invariant is kept |
| JobServer.JobTable.GetJob | app.py:364-369 | the entry of a known job, and nothing (404) for an unknown one |
| SrtInfo.RSplit2 | app.py:54 | `rsplit('.', 2)` gives one to three parts that join back with dots to the name; no part after the first holds a dot, and the first holds none when there are fewer than three parts |
| SrtInfo.NameLanguage | app.py:53-58 | a language taken from the name is two characters long and holds no dot |
| SrtInfo.RSplitSrtName | app.py:54-58 | `x.code.srt` splits into `x`, `code` and `srt` when `code` holds no dot |
| SrtInfo.RSplitPlainName | app.py:54-56 | `stem.srt` with no dot in `stem` splits into two parts |
| SrtInfo.SrtLanguage | app.py:39-81 | defines the language `read_srt_file` reports: the two-character code from a `stem.xx.srt` name, else the detected language of the sample; NameGivesLanguage and PlainNameDetects state its properties |
| SrtInfo.NameGivesLanguage | app.py:52-58 | a file named `stem.xx.srt` with a two-character `xx` is taken to be in language `xx`, whatever its content |
| SrtInfo.PlainNameDetects | app.py:59-70 | a file named `stem.srt`, including one named just `.srt`, gets the language detected from its sample |
| SrtInfo.CollectTextLines | app.py:61-66 | the loop collects the stripped lines that are not blank, not all digits and hold no `-->`, in order |
| SrtInfo.TextLinesSound | app.py:63-66 | every sample line passes the filter, is stripped, and is the stripped form of an input line |
| SrtInfo.TextLinesComplete | app.py:63-66 | every input line whose stripped form passes the filter is among the sample lines |
| SrtInfo.TextLinesAppend | app.py:61-66 | the filter keeps order: the lines of a concatenation are those of each part in turn |
| SrtInfo.ShortSampleIsWhole | app.py:68 | a file with at most 20 text lines is sampled whole |
| SrtInfo.SampleIgnoresLaterLines | app.py:68 | once 20 text lines have been seen, the lines after them do not change the sample |

## Left out

- Times are integer milliseconds.
  - `format_srt_time` works on float seconds, and its `int()` truncation of
    the fraction is left out.
  - Whisper's `start` and `end` are taken as milliseconds already.
- SrtTime.ExtensionMs: computes `int((min(t / max(o, 1), 2.0) - 1) * 2000)`
  exactly in integers. It does not model floating-point rounding, which can
  change the result by one millisecond at a boundary.
- Text.Upper: upper-cases ASCII letters only. The annotation patterns are
  ASCII, but Python's `upper` also changes other letters.
- Text.IsDigitString: `isdigit` accepts ASCII digits only here. Python also
  accepts other Unicode digits.
- Text.ParseInt: `int()` accepts surrounding whitespace, a sign and ASCII
  digits. Underscores and non-ASCII digits are left out.
- Cli.NoOverwrite: excludes the case where `--language` is given as an
  empty string and the detected language is empty too. There no target
  path is set (`target_srt` is `None` at mkv_transcribe.py:368), yet the
  "same language" branch still copies the transcript (mkv_transcribe.py:419-422),
  to a file named `None` in the working directory, which the check never
  looked at.
- External programs are parameters or success flags. Their own behaviour is
  not part of this model.
  - Audio extraction (ffmpeg).
  - Whisper transcription and translation: a segment list, or a detected
    language and a success flag.
  - The NLLB model and its tokenizer settings: a function `Model`.
  - langdetect: a function `detect`, whose own exception handling is part
    of it.
  - chardet and the file decoding: the content is given as a string.
- Printing, `sys.exit`, `shutil.copy` and the removal of the audio file are
  left out.
  - A failed removal at completion is the `ok = false` case of `Complete`.
  - The `--keep-audio` cleanup of `main` is left out.
- Threads are atomic steps.
  - Acquiring a slot and marking the job running are one step.
  - The 75% "Loading NLLB translation model..." progress is overwritten
    within the same step, so no request can observe it.
  - The one-second wait between slot polls is left out.
  - The re-import of `mkv_transcribe` is left out.
- Exceptions inside the cancel checks' `os.remove` calls are left out.
- Job entry fields and request values left out:
  - the `started` timestamp;
  - the `traceback` field;
  - a JSON `null` for `language`. The model reads a missing `language` as
    `en-US` and has no null. In the source, a null `language` with overwrite
    on is accepted and its worker falls back to `en` (app.py:272). With
    overwrite off, it fails at `language[:2]` (app.py:183) with an
    unhandled error. A null `path` is modelled: it is refused with 400 like
    a missing one;
  - non-boolean values of `overwrite`.
- `read_srt_file`'s `size` and `modified` fields, and its `exists: false`
  reply on an I/O error, are left out because the file system is not
  modelled.
- Flask routing and JSON are left out. The HTTP status of each reply is
  given by `HttpStatus` and `CancelStatus`.
- `scan_directory`, `browse`, `index`, `list_jobs` and the environment
  variables are not part of this model. `MEDIA_FOLDER` and
  `MAX_CONCURRENT_JOBS` enter as the `Config` parameter.
- `get_nllb_model` and its model cache are left out, because the model is a
  parameter.
- The overwrite check of `transcribe` looks only at `{base}.en.srt` and
  `{base}.{language[:2]}.srt`.
  - The worker also writes `{base}.{detected}.srt`, which is not checked.
  - Its target file uses `language.split('-')[0]`, which differs from
    `language[:2]` for a code longer than two letters.
  - The model keeps both rules as the code has them.
