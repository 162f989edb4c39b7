# Spins — a verified model of the session store, generation pipeline and WAV encoder

Spins turns a prompt into a "spin": an album-like session of audio tracks. A generation
service writes an outline, a script and speech for each track, plus cover images. This
project models the logic behind that in Dafny:

- **The session store, queue and playback cursor** of the `App` component in `App.tsx`. This
  is class `SpinsApp.App`. Its fields are the `spins` record, the insertion order of its keys,
  the view, the viewed spin and the two playback pointers. Its methods are the handlers.
- **The per-track status machine and the sequential generation loop.** These are modelled
  as functions on a snapshot of that state (module `Pipeline`). The class methods are proved
  equal to them.
- **Track merging, track stubs, the initial store and the newest-first selector.** These are
  in module `Store`. Finding the playing track, next/previous and steering insertion are in
  module `Queue`.
- **The WAV container encoder of `services/gemini.ts`.** This is module `Wav`.
  `writeString`, the `DataView` stores, `addWavHeader` and `decodeBase64` are imperative code
  over `array<byte>`. Each is proved to produce a byte sequence given by `WavHeader` /
  `WavFile`. Lemmas read every header field back: the markers, the sizes and the format fields.
- **The result shaping of the three service calls.** This is module `Gemini`. It covers the
  outline's defaults and fence stripping with its total fallback, the script fallback and audio
  failures, and the "first inline part" image rule.

Service responses, `JSON.parse`, `atob`, speech synthesis and object URLs are parameters of
the model. An answer is `Answered(v)`; a rejected call is `Threw`. The clock (`Date.now()`)
is a parameter too. JavaScript's rules are written out:
- truthiness of a `string | null` is `IsSet`, present and non-empty;
- `||` on strings is `OrElse` / `PropertyOr`;
- `trim` and the `\s` class use the ECMAScript whitespace set `IsSpace`;
- `charCodeAt` stored into a `Uint8Array` is taken modulo 256;
- `setUint16` / `setUint32` reduce into the unsigned range and store little-endian;
- `Array.prototype.sort` is stable.

Three behaviours of the code are worth spelling out:

- **Script failure.** In `generateTrackAudio` only an *empty* script text falls back to the
  one-line "Welcome to this track about …" script (services/gemini.ts:155). A rejected script
  or speech request is rethrown (services/gemini.ts:184-187), so the track ends in `error`;
  `Gemini.GenerateTrackAudio` returns `Failure(ServiceFailed)` in that case.
- **Fenced JSON.** A reply wrapped in a fenced code block is not a failure: the fences are
  stripped and what remains is parsed (services/gemini.ts:112-113).
- **Anchored fence removal.** The fence test trims the text, but the three replacements are
  anchored on the untrimmed text. A reply with whitespace before an opening fence keeps that
  fence, and only the closing one is removed (`Gemini.IndentedFenceKept`).

## Model

| member | source | states |
|---|---|---|
| Text.Trim | App.tsx:93 | `trim`: the result is no longer than the input and neither starts nor ends with whitespace; `IsBlank` is `Trim(s) == ""`, characterised by `BlankIffAllSpace` (also used by services/gemini.ts:112) |
| Text.BlankIffAllSpace | App.tsx:93 | the start-spin guard `!prompt.trim()` holds exactly when every character of the prompt is ECMAScript whitespace |
| Text.Decimal | App.tsx:97 | the rendering of a `${n}` template placeholder: at least one digit, a single digit exactly for n < 10; `DecimalInjective` makes it one-to-one |
| Text.DecimalInjective | App.tsx:97 | two different clock readings or indexes give two different decimal renderings, which makes the generated ids distinct |
| Wav.CharCodes | services/gemini.ts:53-57 | one byte per character (`charCodeAt` modulo 2^8), so the result has the string's length |
| Wav.LE16 | services/gemini.ts:30-40 | the two bytes a little-endian `setUint16` stores; `LE16RoundTrip` reads them back as the value modulo 2^16 |
| Wav.LE32 | services/gemini.ts:22-44 | the four bytes a little-endian `setUint32` stores; `LE32RoundTrip` reads them back as the value modulo 2^32 |
| Wav.LE16RoundTrip | services/gemini.ts:30-40 | a 16-bit little-endian store reads back as the value reduced modulo 2^16 |
| Wav.LE32RoundTrip | services/gemini.ts:22-44 | a 32-bit little-endian store reads back as the value reduced modulo 2^32 |
| Wav.WavHeader | services/gemini.ts:15-44 | the canonical header is exactly 44 bytes |
| Wav.WavFile | services/gemini.ts:15-50 | the container is 44 + n bytes, the samples unchanged after the header; `WavSizes`, `WavMarkers` and `WavFormat` read every header field back |
| Wav.WavSizes | services/gemini.ts:15-50 | the container is 44 + n bytes; bytes 4-7 hold 36 + n, 16-19 hold 16, 40-43 hold n; bytes 44.. are the samples unchanged |
| Wav.WavMarkers | services/gemini.ts:19-42 | bytes 0-3, 8-11, 12-15 and 36-39 are the character codes of "RIFF", "WAVE", "fmt " and "data" |
| Wav.WavFormat | services/gemini.ts:29-40 | bytes 20-21 = 1 (PCM), 22-23 = channels, 24-27 = sample rate, 28-31 = rate·channels·2, 32-33 = channels·2, 34-35 = 16, each reduced to its field width |
| Wav.EmptyWavExample | services/gemini.ts:15-44 | no samples give a 44-byte buffer with 36 at bytes 4-7 and 0 at bytes 40-43 |
| Wav.OneSecondWavExample | services/gemini.ts:28-36 | 48000 sample bytes at 24000 Hz mono give 48044 bytes with byte rate 48000 |
| Wav.WriteString | services/gemini.ts:53-57 | writes the character codes of the string at the offset, keeps the bytes before it, touches nothing after it |
| Wav.SetUint32 | services/gemini.ts:22-44 | writes the 4 little-endian bytes of the value at the offset and nothing else |
| Wav.SetUint16 | services/gemini.ts:30-40 | writes the 2 little-endian bytes of the value at the offset and nothing else |
| Wav.WriteRiffDescriptor | services/gemini.ts:19-24 | bytes 0-11 become "RIFF", the chunk size 36 + n, "WAVE"; bytes 12.. are kept |
| Wav.WriteFormatChunk | services/gemini.ts:25-40 | bytes 12-35 become the format chunk; the first 12 bytes and bytes 36.. are kept |
| Wav.WriteDataChunkHeader | services/gemini.ts:41-44 | bytes 36-43 become "data" and n; the first 36 bytes and bytes 44.. are kept |
| Wav.WriteWavHeader | services/gemini.ts:17-44 | the first 44 bytes of the buffer equal the canonical header `WavHeader`; bytes 44.. are kept |
| Wav.AddWavHeader | services/gemini.ts:15-51 | returns a newly allocated buffer equal to `WavFile`: the header followed by the samples |
| Wav.DecodeBase64 | services/gemini.ts:4-12 | a newly allocated byte array of the binary string's length whose byte i is the code of character i modulo 256 |
| Wav.BinaryStringRoundTrip | services/gemini.ts:5-9 | for a binary string (every code below 256) the byte copy loses nothing, in both directions |
| Gemini.PropertyOr | services/gemini.ts:119-121 | `json.x \|\| d`: the property when present and non-empty, else the default |
| Gemini.StripFences | services/gemini.ts:113 | never lengthens the text, and leaves a text that neither starts nor ends with a fence unchanged; `FencedOutlineText`, `PlainFencedOutlineText`, `IndentedFenceKept` and `TrailingNewlineFenceKept` pin down the fenced cases |
| Gemini.OutlineText | services/gemini.ts:110-114 | text whose trimmed form does not start with a fence is parsed as it is, with `'{}'` for an empty reply |
| Gemini.GenerateSpinOutline | services/gemini.ts:67-132 | inside the try block no outcome rejects: the fallback outline on any error (topic, "Abstract art representing …", one "Introduction" track) and the defaults on success (topic, "Abstract cover art for …", no tracks); the cover prompt is never empty |
| Gemini.DropSpaces | services/gemini.ts:113 | a leading run of whitespace is exactly what `trim` and `\s*` remove before the first other character |
| Gemini.FencedOutlineText | services/gemini.ts:112-113 | a reply of the form "```json" + whitespace + body + "```" is parsed as the body alone |
| Gemini.IndentedFenceKept | services/gemini.ts:112-113 | with whitespace before the opening fence, only the closing fence is removed |
| Gemini.TrailingNewlineFenceKept | services/gemini.ts:112-113 | with a newline after the closing fence, the end-anchored pattern does not match: the opening fence is removed and the body is parsed still followed by the closing fence (so `JSON.parse` fails and the outline falls back) |
| Gemini.PlainFencedOutlineText | services/gemini.ts:112-113 | a reply of the form "```" + whitespace + body + "```" (no language tag, body not starting with `j`) is parsed as the body alone |
| Gemini.ScriptText | services/gemini.ts:155 | the script is never empty; it is the generated text when that is non-empty and "Welcome to this track about <title>." when it is empty |
| Gemini.SpeechData | services/gemini.ts:172-176 | audio data is found exactly when the first part has non-empty inline data, and it is that data |
| Gemini.GenerateTrackAudio | services/gemini.ts:134-188 | every failure (script or speech call rejected, no audio data, undecodable base64) fails the call; otherwise the result is the WAV container of the decoded speech at 24000 Hz, 1 channel |
| Gemini.TrackAudioFormat | services/gemini.ts:178-179 | a successful track's audio is 16-bit PCM, mono, 24000 Hz, byte rate 48000, block align 2, the speech bytes after the header |
| Gemini.DataUrl | services/gemini.ts:213 | the URL starts with `data:image/png;base64,` and the rest is exactly the inline data |
| Gemini.GenerateImage | services/gemini.ts:190-222 | null on error; for an answer, a URL exactly when some part has inline data, built from the first such part |
| Store.Merge | App.tsx:231 | `{...t, ...updates}`: each field the patch carries is replaced, every other field and the id are kept |
| Store.MergeIdempotent | App.tsx:231 | applying the same patch twice equals applying it once |
| Store.MergeCommutes | App.tsx:231 | patches on disjoint fields (image vs. status and audio) commute |
| Store.UpdateTracks | App.tsx:230-232 | same length and ids; tracks with another id unchanged; tracks with the id merged |
| Store.UpdateTrackInSpin | App.tsx:225-239 | an absent session leaves the store unchanged; otherwise same keys, other sessions unchanged, topic and createdAt kept, tracks updated by id |
| Store.UpdateIdempotent | App.tsx:225-239 | repeating an update changes nothing more |
| Store.UpdatesCommute | App.tsx:225-239 | updates to different sessions, different tracks, or disjoint fields give the same store in either order (the image callback racing the status updates) |
| Store.TrackId | App.tsx:154 | `track-<spinId>-<idx>` starts with the spin's prefix; `TrackIdInjective` makes it one-to-one in the index |
| Store.TrackIdInjective | App.tsx:154 | `track-<spinId>-<idx>` ids of one spin differ for different indexes |
| Store.TrackStubs | App.tsx:153-161 | one stub per outline entry in outline order, pairwise distinct ids `track-<spinId>-<idx>`, topic id = spin id, title and description from the entry, empty media, pending |
| Store.ForTopic | App.tsx:35 | keeps exactly the seeded tracks of the topic |
| Store.ForTopicAppend | App.tsx:35 | filtering a concatenation is the concatenation of the filtered parts, so seed order and repetitions are kept |
| Store.ForTopicSnoc | App.tsx:35 | one more seeded track is appended to the result exactly when it belongs to the topic |
| Store.ForTopicDistinct | App.tsx:35 | filtering keeps track ids distinct |
| Store.InitialSpins | App.tsx:29-40 | a session under each seeded topic id and no other key; each holds a topic with that id, exactly the seeded tracks of that id, and createdAt 0 |
| Store.TopicIndex | App.tsx:31-38 | the index of the first seed topic with an id, or -1 exactly when no topic has it |
| Store.TopicIndexSnoc | App.tsx:31-38 | one more seed topic changes the first index only for an id not seen before |
| Store.LastTopicIndex | App.tsx:31-38 | the index of the last seed topic with an id (no later topic has it), or -1 exactly when no topic has it |
| Store.InitialSpinsLastTopic | App.tsx:31-38 | each key's session holds the seed topic at `LastTopicIndex`: a later topic with a repeated id overwrites the earlier one |
| Store.InitialOrder | App.tsx:31-38 | the seeded topic ids, each once |
| Store.InitialOrderSnoc | App.tsx:31-38 | seeding one more topic appends its id to the key order exactly when the id is new |
| Store.InitialOrderFirstOccurrence | App.tsx:31-38 | every key has a first seed topic and the keys follow the order of those first topics, as object key order keeps a re-assigned key in its first place |
| Store.FirstTopicOrderPair | App.tsx:31-38 | in that order, for any two keys the earlier key's first seed topic comes first |
| Store.InsertNewest | App.tsx:87 | one insertion step of the sort: one longer and holding the inserted session; `InsertNewestPermutes`, `InsertNewestSorted` and `InsertNewestStable` give the rest |
| Store.SortNewestFirst | App.tsx:87 | the stable newest-first sort keeps the length; `SortNewestFirstCorrect` proves it sorted, a permutation and stable |
| Store.InsertNewestPermutes | App.tsx:87 | one insertion step keeps the multiset of sessions |
| Store.InsertNewestSorted | App.tsx:87 | one insertion step keeps newest-first order |
| Store.InsertNewestStable | App.tsx:87 | one insertion step keeps the relative order of sessions with equal createdAt |
| Store.SortNewestFirstCorrect | App.tsx:87 | the comparator `b.createdAt - a.createdAt` sorts descending, is a permutation, and is stable |
| Store.SortNewestFirstStable | App.tsx:87 | the sessions created at any one time keep their relative order |
| Queue.FindIndex | App.tsx:289 | the first index whose id equals the pointer, or -1 exactly when none does (a null pointer never matches) |
| Queue.FindIndexOfMember | App.tsx:289 | with distinct ids a track's own id finds that track |
| Queue.Find | App.tsx:81-83 | `find`: a track with the pointer's id exactly when one exists, and then the first such track |
| Queue.NextTrackId | App.tsx:289-292 | the new pointer is the old one or the id of a track of the session; `NextMoves` gives the exact move |
| Queue.PreviousTrackId | App.tsx:297-300 | the new pointer is the old one or the id of a track of the session; `PreviousMoves` gives the exact move |
| Queue.NextMoves | App.tsx:287-293 | next moves exactly one position forward unless on the last track; from a pointer not in the list it selects the first track |
| Queue.PreviousMoves | App.tsx:295-301 | previous moves exactly one position back unless on the first track (or not found) |
| Queue.NextThenPrevious | App.tsx:287-301 | next then previous returns to any track but the last |
| Queue.PreviousThenNext | App.tsx:287-301 | previous then next returns to any track but the first |
| Queue.SingleTrackMovesNothing | App.tsx:287-301 | on a one-track session whose track is current both moves do nothing |
| Queue.InsertIndex | App.tsx:258-262 | `'last'` gives the end; `'next'` gives the position right after the first track with the playing id, or the front when no track has it |
| Queue.InsertAt | App.tsx:257-263 | `push` / `splice(i, 0, x)` on a copy: one longer, x at i, the tracks before and after i unchanged |
| Queue.RemoveInserted | App.tsx:257-263 | removing the inserted track gives the old list, so existing tracks keep their relative order |
| Queue.InsertKeepsDistinct | App.tsx:246-263 | a track with a new id keeps ids distinct |
| Queue.SteerId | App.tsx:247 | `steer-<now>`: starts with `steer-` followed by at least one digit |
| Queue.SteerIdInjective | App.tsx:247 | different clock readings give different steer ids |
| Queue.SteerTrack | App.tsx:246-254 | the new track: id `steer-<now>`, the session's topic id, title "Spin Update", the steer prompt as description, empty media, pending |
| Queue.SteerNextPlacement | App.tsx:260-263 | `'next'` puts the track right after the playing one, or first when it is not in the list |
| Queue.SteerLastPlacement | App.tsx:257-258 | `'last'` appends the new track to the list |
| Queue.SteerExample | App.tsx:257-263 | with A playing in [A, B, C], 'next' gives [A, NEW, B, C] and 'last' gives [A, B, C, NEW] |
| Pipeline.Begin | App.tsx:191 | marking the track as generating keeps every key and both pointers; `BeginMarksGenerating` says which tracks change |
| Pipeline.AutoPlay | App.tsx:210-217 | with a track pointer set nothing changes; otherwise the pointers become that spin and that track; the store is never touched |
| Pipeline.Settle | App.tsx:204-221 | keeps every key; on failure or with a track pointer set the pointers are unchanged, on success with none set they become that spin and track |
| Pipeline.ProcessTrack | App.tsx:189-223 | keeps every key, and either leaves both pointers alone or points them at that spin and track; `ProcessTrackOutcome` and `ProcessTrackPointers` give the exact outcome |
| Pipeline.RunPipeline | App.tsx:183-187 | the loop keeps every key; `PipelineFrame`, `PipelineTracks` and `PipelineAutoPlay` give the rest |
| Pipeline.BeginMarksGenerating | App.tsx:191 | first the track (and no other) is marked generating |
| Pipeline.ProcessTrackOutcome | App.tsx:189-223 | one run ends the tracks with that id as ready with the audio URL, or as error, and changes no other track, session or key |
| Pipeline.ProcessTrackPointers | App.tsx:210-217 | the pointers move to (that spin, that track) only on success with no track playing; otherwise both are unchanged |
| Pipeline.PipelineFrame | App.tsx:183-187 | a run keeps every key, topic, createdAt and track id list and leaves other sessions alone |
| Pipeline.PipelineTracks | App.tsx:183-223 | after the loop every listed track of the session is settled by its own outcome; unlisted tracks are unchanged |
| Pipeline.FirstReady | App.tsx:210-217 | the first track in list order whose audio succeeded, or -1 when all failed |
| Pipeline.PipelineAutoPlay | App.tsx:183-217 | first ready wins: with nothing playing, the pointers end on the first successful track in list order; otherwise they are untouched |
| SpinsApp.SpinId | App.tsx:97 | `spin-<now>`: starts with `spin-` followed by at least one digit |
| SpinsApp.SpinIdInjective | App.tsx:97 | different clock readings give different spin ids |
| SpinsApp.Placeholder | App.tsx:98-112 | the optimistic session: the spin id as topic id, the prompt as title, an empty image, "Generating..." as description, no tracks, the given timestamp |
| SpinsApp.Outlined | App.tsx:124-170 | the outlined session keeps its timestamp, topic id and image, takes the creative title and "Custom generated spin", and holds one distinct-id stub per planned track |
| SpinsApp.Steered | App.tsx:257-270 | the steered session keeps its topic and timestamp, and its tracks are the old ones plus the new track, as a multiset |
| SpinsApp.WithKey | App.tsx:106-113 | writing a key into a record appends it to the key order exactly when it is new and otherwise leaves the order alone, keeping keys distinct |
| SpinsApp.App.constructor | App.tsx:29-48 | the initial store of the seeded topics and tracks, browsing, nothing playing |
| SpinsApp.App.StartSpin | App.tsx:92-117 | a blank prompt changes nothing; otherwise the placeholder session (id `spin-<now>`, title = prompt, empty image, no tracks) is stored and shown, other sessions and pointers unchanged |
| SpinsApp.App.AddPlaceholder | App.tsx:97-116 | stores the placeholder under `spin-<now>` and shows it |
| SpinsApp.App.ReceiveOutline | App.tsx:119-175 | the creative title and the stubs replace the placeholder's, then the stubs run through the generation loop in order |
| SpinsApp.App.ApplySpinCover | App.tsx:137-150 | a truthy cover URL becomes the topic's image, nothing else changes |
| SpinsApp.App.UpdateTrackInSpin | App.tsx:225-239 | the store becomes the key-scoped merge; track ids stay distinct |
| SpinsApp.App.ApplyTrackImage | App.tsx:197-199 | a truthy image URL is merged into the track, nothing else changes |
| SpinsApp.App.GenerateSingleTrackAssets | App.tsx:189-223 | the state after one track run is the status machine's `ProcessTrack` |
| SpinsApp.App.GenerateAssetsForTracks | App.tsx:183-187 | the state after the loop is `RunPipeline`: the tracks processed one after another in list order |
| SpinsApp.App.HandleSteer | App.tsx:241-274 | without a playing session nothing changes; otherwise the "Spin Update" track (topic id of the session, steer prompt as description, pending) is inserted at the end or after the playing track and generated; a fresh steer id keeps track ids distinct |
| SpinsApp.App.PlayTrack | App.tsx:278-285 | only a ready track becomes the playing track, switching to the viewed spin when the detail view shows one |
| SpinsApp.App.Next | App.tsx:287-293 | no-op without a playing session; otherwise the pointer becomes `NextTrackId` of the session's tracks |
| SpinsApp.App.Previous | App.tsx:295-301 | no-op without a playing session; otherwise the pointer becomes `PreviousTrackId` |
| SpinsApp.App.CurrentTrack | App.tsx:80-83 | a track exactly when the playing session exists and holds a track with the playing id, and then it is that session's first track with that id; stale pointers give none |
| SpinsApp.App.Sessions | App.tsx:87 | `Object.values(spins)`: the sessions in key order |
| SpinsApp.App.SortedSpins | App.tsx:86-88 | every session exactly once, newest first, ties in key order |

## Left out

- Rendering, the API-key check (`window.aistudio`) and the UI-only state are left out: they are presentation (App.tsx:24-27, 49, 52-53, 55-72, 303-471). The UI-only state is `prompt`, `isSpinningUp` and `isPlayerExpanded`.
- The inline navigation and play handlers in the JSX (App.tsx:409-412, 435-450, 463) are view wiring and are not modelled. `handlePlayTrack` is defined but not referenced by the rendered tree; it is modelled as written.
- Concurrency: every `await` point is left out.
  - The outline, the cover image and each track's image resolve asynchronously and can interleave with other handlers.
  - In the model, `ReceiveOutline` and `HandleSteer` run their generation to completion at once.
  - The two image callbacks are separate methods (`ApplySpinCover`, `ApplyTrackImage`) that may be called at any point.
  - `Store.UpdatesCommute` shows the racing image update and status updates commute.
- The service calls, prompt texts, `JSON.parse`, `atob`, speech synthesis and `Blob` / `URL.createObjectURL` are foreign calls.
  - Their outcomes are parameters.
  - A track's audio outcome reaches the pipeline as the object URL, or `Threw`.
  - `Gemini.GenerateTrackAudio` returns the WAV bytes that would be wrapped in that URL.
- `Date.now()` is a parameter. Freshness of the steer id is a hypothesis of the distinct-ids guarantee, not a requirement of the handler.
- `console.error` logging is left out.
- The catch branch of `handleStartSpin` (App.tsx:177-180) only clears the spinner flag, which is UI state.
- Gemini.GenerateSpinOutline, Gemini.GenerateTrackAudio, Gemini.GenerateImage: client construction (`new GoogleGenAI`, services/gemini.ts:66, :136, :191) sits before each `try` and is taken to succeed; a constructor that throws would reject the call, which the model does not represent.
- `SpinsApp.App.ReceiveOutline` and `SpinsApp.App.ApplySpinCover` require the session to exist. The code reads `prev[spinId]` without a check, and no handler removes a session, so it always exists.
- `Gemini.GenerateSpinOutline` takes the parsed track entries as strings. Entries with missing fields, non-string values or non-array `tracks` from `JSON.parse` are left out.
- `Gemini.ScriptText` takes an absent `response.text` as the empty string, which `||` treats the same way.
- The optional `duration` field of `Audiocast` (types.ts:18) is left out. The core never sets or reads it.
- The components and the seed data of constants.ts are left out. The initial store takes the seeded topics and tracks as parameters.
- SpinsApp.App.Sessions: `Object.values` lists array-index-like keys (canonical non-negative integers) first in ascending order; the model keeps plain insertion order, which matches the `spin-…` keys the app creates and the seeded topic ids (`tech`, `news`, …), but would not an integer-like key.
