# Speaker-labelled subtitles: a Dafny model

This project models the core of `app.py`, a small web application. It
transcribes an uploaded video and attributes each transcript segment to a
speaker. It then writes a WebVTT subtitle track in which every speaker appears
under an anonymous placeholder `SPEAKER_NN`. Later, it lets the user rename the
placeholders in the stored track.

The modules follow the pieces of that pipeline:

- `Decimal` gives `{n:0Wd}`, the zero-padded decimal rendering.
- `Timestamp` gives `format_timestamp`, on whole milliseconds, together with a parser that reads a timestamp back.
- `Diarization` gives `get_speaker_for_segment`. A segment goes to the first turn, in the diarization engine's order, whose closed interval holds the segment's midpoint; otherwise it is `Unknown`.
- `Placeholders` gives the allocation of `SPEAKER_NN` to speakers in first-seen order, as a function of the sequence of resolved speakers.
- `Subtitles` gives the STEP 5 loop of `index` (`BuildTrack`), proved against the specification functions `Track` and `Allocation`. It also has a reader for the track, which gives the round trip.
- `Text` gives the Python string operations the code relies on: `strip`, `"\n".join`, `split("\n")` and `replace`.
- `Rename` gives the two loops of `update_speakers`. The first builds `new_mapping`, an insertion-ordered dict. The second applies the replacements in that order.
- `Jobs` gives the `generated_files` table as a class whose `jobs` map the operations update in place:
  - `Index` stores a job.
  - `Download` reads one field of a job.
  - `UpdateSpeakers` rewrites the track of one job.

Times are whole numbers of milliseconds, so the midpoint `(start + end) / 2` is compared doubled and stays exact.

Some behaviours of `app.py` are easy to overlook:

- **Trailing newline.** The track is `"\n".join` of its lines, and the last line is the blank line after the last cue. So the text ends in a single `"\n"`, not in a blank line followed by a newline.
- **Order of renames.** The renames are applied in the order of the submitted form's fields, not in placeholder-number order. One pair can therefore rename what an earlier pair wrote (`Rename.RenamesChain`).
- **Renaming twice.** A single pair `(p, n)` applied twice gives the same track as applying it once when the new name holds no bracket and no cue text holds `[p]` (`Rename.RenameTwiceInTrack`). A new name holding `[p` breaks this: renaming `A` to `[A` turns `[A]` into `[[A]` and then into `[[[A]` (`Rename.BracketNameGrows`). A whole form applied twice need not give the same track either:
  - With `SPEAKER_01` renamed to `Alice` and `SPEAKER_02` to `SPEAKER_01`, a `[SPEAKER_02]` cue reads `[SPEAKER_01]` after one submission and `[Alice]` after two (`Rename.RenameTwiceDiffers`).
  - Swapping two names merges the two speakers (`Rename.SwapMerges`).
- **No finalized state.** A job has no "finalized" state: renaming only replaces the stored track, and a job can be renamed again.

## Model

| member | source | states |
|---|---|---|
| Decimal.PadDecimalFacts | app.py:24 | `{n:0Wd}` has only digits, is at least `W` long, is exactly `W` long when `n` fits, and denotes `n` |
| Timestamp.FormatTimestamp | app.py:19-24 | defines `format_timestamp` on whole milliseconds: hours, minutes, seconds and milliseconds, zero-padded; its properties are the rows below it |
| Timestamp.TimestampFields | app.py:19-24 | the formatted time has hours `t div 3600000` in at least two digits, minutes and seconds below 60 in two digits, and milliseconds in three, separated by `:`, `:` and `.` |
| Timestamp.FormatThenParse | app.py:19-24 | parsing a formatted time gives the time back |
| Timestamp.FormatInjective | app.py:19-24 | distinct times give distinct timestamps |
| Timestamp.TimestampAlphabet | app.py:24 | a timestamp holds only digits, `:` and `.` |
| Timestamp.ZeroTimestamp | app.py:19-24 | time 0 is `00:00:00.000` |
| Timestamp.FractionalTimestamp | app.py:19-24 | 3661.25 s is `01:01:01.250` |
| Diarization.FirstHolding | app.py:31-33 | the index found holds the midpoint and no earlier turn does; none is found exactly when no turn holds it |
| Diarization.SpeakerForSegment | app.py:26-34 | `Unknown` without diarization or when no turn holds the midpoint; otherwise the speaker of the first turn that holds it |
| Diarization.BoundaryIsInclusive | app.py:32 | a midpoint exactly on a turn's start or end belongs to that turn |
| Diarization.FirstOverlapWins | app.py:31-33 | with overlapping turns, the one enumerated first decides |
| Placeholders.PlaceholderName | app.py:105 | defines `f"SPEAKER_{counter:02d}"`; its shape, injectivity and alphabet are the rows below it |
| Placeholders.PlaceholderNameShape | app.py:105 | `SPEAKER_` followed by at least two digits, exactly two below 100 |
| Placeholders.PlaceholderNameInjective | app.py:105 | distinct counters give distinct placeholders |
| Placeholders.PlaceholderNamePlain | app.py:105 | a placeholder holds no `]` and no newline |
| Placeholders.FirstSeen | app.py:98-106 | the distinct speakers without repetition, and every speaker among them |
| Placeholders.FirstSeenOrder | app.py:98-106 | the distinct speakers are listed in order of first appearance: an earlier position holds a speaker that appears earlier |
| Placeholders.Allocation | app.py:96-107 | defines the placeholder map: each speaker seen maps to `SPEAKER_NN` numbered by its rank in first-seen order; the loop step is `Placeholders.AllocateNext` |
| Placeholders.AllocateNext | app.py:104-107 | one loop step: a new speaker gets `SPEAKER_{counter}` and the counter grows by one; a known speaker keeps its placeholder and the counter stays |
| Placeholders.AllocationDense | app.py:104-106 | the map's keys are the speakers seen; for `k` distinct speakers its values are exactly `SPEAKER_01..k` |
| Placeholders.AllocationKeys | app.py:104-106 | the map's keys are exactly the speakers seen, one entry per distinct speaker |
| Placeholders.AllocationValues | app.py:104-106 | the placeholders handed out are exactly `SPEAKER_01..k` for `k` distinct speakers |
| Placeholders.AllocationOrder | app.py:104-106 | the `i`-th distinct speaker in order of first appearance gets number `i+1` |
| Placeholders.FirstSpeakerGetsOne | app.py:97-106 | the first segment's speaker gets `SPEAKER_01` |
| Placeholders.AllocationInjective | app.py:104-106 | distinct speakers get distinct placeholders |
| Placeholders.AllocationStable | app.py:104-107 | once assigned, a placeholder never changes as more segments are seen |
| Placeholders.SingleSpeaker | app.py:104-107 | a single speaker throughout gives the map `{speaker: SPEAKER_01}` |
| Placeholders.ReturningSpeaker | app.py:104-107 | speakers A, B, A give `{A: SPEAKER_01, B: SPEAKER_02}`: A's return reuses its placeholder |
| Placeholders.EmptyAllocation | app.py:96-97 | no segments give an empty map |
| Subtitles.Track | app.py:95-112 | defines the track: `"\n".join` of `WEBVTT`, a blank line and one three-line cue per segment; the loop `BuildTrack` is proved to compute it |
| Subtitles.BuildTrack | app.py:95-112 | the loop returns the track of the segments, the first-seen allocation of their speakers, and a counter one above the number of distinct speakers |
| Subtitles.CueLinesShape | app.py:108-110 | each segment's cue is its timing line, its tagged text line and a blank line, in segment order |
| Subtitles.TrackShape | app.py:95-112 | the track has `2 + 3n` lines: `WEBVTT`, a blank line, then one cue per segment, with its times, its speaker's placeholder and its stripped text; a cue with empty text is kept |
| Subtitles.TagsFollowSpeakers | app.py:102-109 | two cues carry the same placeholder exactly when their segments have the same speaker, and the first cue carries `SPEAKER_01` |
| Subtitles.NoDiarization | app.py:29-30 | without diarization (or with no turns) the map is `{Unknown: SPEAKER_01}` and every cue is tagged `SPEAKER_01` |
| Subtitles.SingleCueTrack | app.py:95-112 | one two-second segment "hello" without diarization gives `WEBVTT`, a blank line, `00:00:00.000 --> 00:00:02.000`, `[SPEAKER_01] hello` and a blank line, joined by newlines |
| Subtitles.ParseTimingLineOf | app.py:108 | a timing line reads back as the segment's start and end |
| Subtitles.ParseTagLineOf | app.py:109 | a tag line reads back as its placeholder and the stripped text |
| Subtitles.TrackLinesParseBack | app.py:95-110 | the track's lines read back as one cue per segment, in input order |
| Subtitles.TrackRoundTrip | app.py:95-112 | when no segment text has a newline, splitting the track text on newlines gives `2 + 3n` lines that read back as the segments' cues |
| Text.Strip | app.py:101 | defines `str.strip()`: the slice between the first and after the last non-whitespace character |
| Text.Join | app.py:112 | `"\n".join` of one line is that line; `Text.SplitJoin` gives the inverse |
| Text.Split | app.py:112 | `split("\n")` gives at least one piece, and no piece holds a newline |
| Text.ReplaceAll | app.py:176 | defines `str.replace`: occurrences found left to right and replaced without overlap; its properties are the `Text.Replace*` rows |
| Text.StripBlank | app.py:170 | stripping gives the empty string exactly when the value is all whitespace |
| Text.SplitJoin | app.py:112 | splitting a newline join of newline-free lines gives the lines back |
| Text.ReplaceBySelf | app.py:176 | replacing a token by itself leaves the text unchanged |
| Text.ReplaceAbsent | app.py:176 | replacing a token that does not occur leaves the text unchanged |
| Text.ReplaceSplit | app.py:176 | when no occurrence straddles the boundary, replacing in `a + b` is replacing in `a` and in `b` |
| Text.ReplaceJoin | app.py:176 | for a pattern without a newline, replacing in a newline join is joining the lines replaced one by one |
| Subtitles.TimingLineNoBracket | app.py:108 | a timing line holds no `[`, so no rename touches it |
| Rename.DictPut | app.py:170 | `d[k] = v` keeps keys distinct; an existing key keeps its place and takes `v`; a new key goes last |
| Rename.NewMapping | app.py:167-170 | `new_mapping` after the first loop; its keys are distinct (lookups are `Rename.NewMappingKeys` and `Rename.NewMappingLookup`) |
| Rename.BuildMapping | app.py:167-170 | the first loop builds `NewMapping(form)` |
| Rename.ResolveCases | app.py:170 | a blank value maps the field to its own name; any other value maps it to the stripped value, which is not blank |
| Rename.NewMappingKeys | app.py:167-170 | the keys of `new_mapping` are exactly the form's fields |
| Rename.NewMappingLookup | app.py:167-170 | `new_mapping[k]` is the resolved value of the last pair for `k`, and `k` is missing exactly when no pair names it |
| Rename.ApplyRenames | app.py:173-176 | defines the second loop: each `[key]` replaced by `[value]`, pair after pair in mapping order |
| Rename.RenameTrack | app.py:173-176 | the second loop produces `ApplyRenames(vtt, mapping)`: each `[key]` is replaced by `[value]`, pair after pair |
| Rename.IdentityRenames | app.py:173-176 | renaming every placeholder to itself leaves the track unchanged |
| Rename.BlankFormKeepsTrack | app.py:167-176 | a form with every field left blank leaves the track unchanged |
| Rename.AbsentRenames | app.py:173-176 | placeholders whose `[key]` does not occur leave the track unchanged |
| Rename.RenameOneCue | app.py:176 | renaming `SPEAKER_01` to `Alice` turns `[SPEAKER_01] hi` into `[Alice] hi` |
| Rename.RenamesChain | app.py:173-176 | pairs apply to the output of earlier pairs: A→B then B→C turns `[A]` into `[C]` |
| Rename.RenameTagLine | app.py:176 | renaming `p` to `n` on a cue's text line turns `[p] text` into `[n] text` and leaves any other tag alone, when the tag holds no bracket, `p` holds no `]` and the text holds no `[p]` |
| Rename.RenameCueLines | app.py:173-176 | renaming `p` to `n` in the joined cue lines gives the joined lines with every `p` tag retagged `n`, and the header, timing lines, texts and blank lines unchanged, when no tag holds a bracket, `p` holds no `]` or newline and no text holds `[p]` |
| Rename.RenameInTrack | app.py:173-176 | one pair `(p, n)` applied to a stored track gives the track built with every `p` tag replaced by `n` and every other tag kept, when no cue text holds `[p]` |
| Rename.RenameTwiceInTrack | app.py:173-176 | one pair `(p, n)` applied twice to a track gives the same track as applying it once, when `n` holds no `[` or `]`, `p` holds no `]` or newline and no cue text holds `[p]` |
| Rename.BracketNameGrows | app.py:173-176 | renaming `A` to `[A` turns `[A]` into `[[A]`, and the same rename again gives `[[[A]` |
| Rename.TwoPairMapping | app.py:167-170 | two distinct fields give a two-entry mapping in form order, each with its resolved value |
| Rename.RenameAlice | app.py:161-176 | the form `SPEAKER_01 = Alice`, `SPEAKER_02` blank: every `SPEAKER_01` cue is tagged `Alice`, and every other cue keeps its tag |
| Rename.RenameTwiceDiffers | app.py:167-176 | the same form submitted twice can differ from once: `SPEAKER_01 = Alice`, `SPEAKER_02 = SPEAKER_01` turns `[SPEAKER_02]` into `[SPEAKER_01]`, then into `[Alice]` |
| Rename.SwapMerges | app.py:173-176 | swapping `A` and `B` turns `[A][B]` into `[A][A]`, merging the two speakers |
| Jobs.Field | app.py:120-125 | a job has exactly the fields `vtt`, `transcript`, `video_path` and `placeholder_map`, and only the last is not text |
| Jobs.JobTable.constructor | app.py:17 | the table starts empty |
| Jobs.JobTable.Index | app.py:119-125 | stores the job built from the segments under `uid` and changes no other entry; downloading its `vtt` then gives the track |
| Jobs.JobTable.Download | app.py:139-159 | not found for an unknown job, a missing type or a non-field; a server error for `placeholder_map`; otherwise the stored text with the file name and media type for its type |
| Jobs.JobTable.UpdateSpeakers | app.py:161-180 | not found and no change for an unknown job; otherwise only that job's `vtt` changes, to the renamed track, and every other download stays the same |
| Jobs.DownloadStoredTrack | app.py:142-147 | the `vtt` download of a stored job is its current track |
| Jobs.BlankRenameKeepsTrack | app.py:119-178 | a job renamed with every field blank still downloads the track it was created with |

## Left out

- Flask routing, request parsing and the HTML templates are not modelled. The form is the sequence of `(field, value)` pairs that `request.form.items()` yields.
- Saving the upload, the temporary files, the `ffmpeg` audio extraction and the audio cleanup (app.py:48-68, 114-116) are file and process I/O, and are not modelled.
- The diarization engine (app.py:70-86) is an external model.
  - Its output is a parameter: an optional sequence of turns, in the engine's enumeration order.
  - A failure of the engine is `None`.
  - The token check at app.py:71-74 is not modelled.
- The Whisper transcription (app.py:88-91) is an external model. The segments and the transcript text are parameters.
- `uuid.uuid4()` (app.py:50, 119) is randomness. The job id is a parameter of `Index`, and storing under an id already in use overwrites that entry, as the dict assignment would.
- Floating point is not modelled.
  - Times are whole milliseconds.
  - Rounding by `{secs:06.3f}` of a time with fractions of a millisecond is not modelled. For example, 59.9996 s would print as `60.000`.
  - Negative times are not modelled.
- The sorted placeholder list for the edit page (app.py:128) is presentation only.
- The `/video/<uid>` route (app.py:132-137) is not modelled: it only serves the stored file.
- `Jobs.JobTable.Download` returns the stored text; its UTF-8 encoding and `send_file` are not modelled.
- Concurrent requests sharing `generated_files` are not modelled: each operation is atomic.
- `Subtitles.TrackRoundTrip` assumes that no segment text holds a newline. A newline inside a text splits its cue's text line, and the track no longer reads back line by line.
- `Rename.NewMapping` keeps the last value when a field occurs twice. `request.form.items()` yields each field only once, so this case does not arise from the form.
- `Text.IsSpace` lists the code points Python's `str.isspace()` accepts. Any other difference in Unicode handling is not modelled.
- `Rename.RenameInTrack`, `Rename.RenameTwiceInTrack` and `Rename.RenameAlice` assume that no stripped cue text holds `[p]` and that `p` holds no `]` or newline. A text that holds `[p]` is renamed too, as `str.replace` would, and these lemmas do not describe that case. `Rename.RenameTwiceInTrack` also assumes that `n` holds no `[` or `]`; `Rename.BracketNameGrows` shows a new name for which a second rename changes the track again.
