# guoguo-study: segmenter, speech settings, speech cache and playback rules

guoguo-study is a small Flask application for studying English. An
administrator pastes text. The server splits it into study items (words and
phrases). Learners open a chapter and press a play button to hear each
item, spoken either by the browser's speech engine or by audio the server
generates and caches. This project models the sequential core of that
application and proves properties of the model:

- `segmenter.dfy` and `dedup.dfy` model `extract_content_items` (app.py),
  the function that turns pasted text into an ordered list of study items
  with no duplicates. `Segmenter.ExtractContentItems` is the source's loop
  program. It is proved to compute the function `Segmenter.Segment`, and the
  lemmas about `Segment` state what every item looks like and how
  duplicates are dropped.
- `chapter_flow.dfy` models how confirmed items pass from one request to the
  next: strip and drop blanks, join with `','`, split on `','`, strip again.
- `tts_settings.dfy` models the single `TTSConfig` row and its accessors.
  `get_tts_config` creates the row lazily with fixed defaults.
  `update_tts_config` updates fields in place, one at a time, within range
  checks. The JSON endpoint `/api/tts-config` is modelled too. The row is a
  class whose methods are proved against the function `ApplyUpdate`.
- `speech_cache.dfy` models the decisions of `text_to_speech(word)`. That
  covers the permission check, the cache file named from a digest of the
  word, the existence-only cache hit, the generation attempt and the
  fallback replies. The audio directory is a class over a map from file
  name to size. What the generation thread did is an input. Traces of
  requests show that cached audio stays cached.
- `playback.dfy` models the decisions of `static/js/main.js`:
  - the client's default settings;
  - the voice-selection rule;
  - the engine dispatch of `playAudio`, including the play button's
    disabled state;
  - the timeout and success test of `playServerTTS`, and how the client
    reads each server reply.
- `text.dfy` holds the Python string operations used throughout:
  `str.isspace`, `str.strip(chars)`, `str.split(sep)` and `sep.join`.

Two parts of Python's Unicode database are parameters of the segmenter
(`Segmenter.UnicodeDb`): the regular-expression class `\w` and
`str.lower()`. The digest `md5(word)[:8]` is a parameter of the cache model.
The clock is an integer parameter `now`.

## Model

| member | source | states |
|---|---|---|
| Text.StripBy | app.py:291 | `s.strip(chars)`: the result is empty exactly when every character is stripped, and otherwise neither starts nor ends with a stripped character |
| Text.StripByInfix | app.py:282 | stripping only removes characters from the ends: the result is the infix of the input at some offset, and every character removed before or after it is in the stripped set |
| Text.Trim | app.py:282 | `s.strip()`: `StripBy` over the characters `str.isspace` accepts, so every property of `StripBy` holds of it |
| Text.StripByAbsent | app.py:416 | stripping never introduces a character absent from the input |
| Text.IndexOf | app.py:278 | the first position of the separator, or the length when there is none |
| Text.SplitOn | app.py:278 | `s.split(sep)` gives at least one part, and no part contains the separator |
| Text.JoinWith | app.py:435 | `sep.join(parts)`: its meaning is stated by `JoinSplit` and `SplitJoin`, which make it the inverse of `SplitOn` |
| Text.JoinSplit | app.py:449 | joining the parts of a split with the separator gives the original string back |
| Text.SplitJoin | app.py:435 | splitting a join of at least one separator-free part gives the parts back |
| Dedup.DedupKeepsInputs | app.py:300-306 | deduplication keeps only items it was given |
| Dedup.DedupSeenInput | app.py:300-306 | after the loop, `seen` holds exactly the non-empty keys of the input |
| Dedup.DedupSeenOutput | app.py:300-306 | after the loop, `seen` holds exactly the keys of the kept items |
| Dedup.DedupStep | app.py:304-306 | an item is appended exactly when its key is non-empty and first seen at its position |
| Dedup.DedupKeysDistinct | app.py:300-306 | no two kept items have the same key |
| Dedup.DedupFirstOccurrences | app.py:300-306 | the output is the subsequence of the first occurrences of each non-empty key, in input order, with the first occurrence's own spelling |
| Dedup.DedupState | app.py:299-306 | the pair `(unique_items, seen)` after the loop has read a prefix of the items; its meaning is stated by the `Dedup` lemmas above |
| Segmenter.Clean | app.py:275 | the result has the input's length; each character is kept if it is in `\w`, `\s` or the listed punctuation, and is otherwise replaced by a space |
| Segmenter.FirstDoubleBlank | app.py:287 | the leftmost start of a run of two or more blanks at or after the given position, or the length when there is none |
| Segmenter.BlankRunEnd | app.py:287 | the end of the maximal run of blanks starting at the given position |
| Segmenter.SplitRuns | app.py:287 | `re.split(r'[ \t]{2,}', line)`: no fragment holds two blanks in a row; a line without newlines gives fragments without newlines; a line with no double blank is its own single fragment |
| Segmenter.SplitRunsRebuild | app.py:287 | the fragments, with separators between them that are each at least two blanks long and all blank, concatenate back to the line |
| Segmenter.SplitRunsMaximal | app.py:287 | each separator is a maximal run: no fragment but the last ends in a blank, no fragment but the first starts with one, and no fragment between two separators is empty |
| Segmenter.NonBlanksMember | app.py:296 | a non-blank character survives dropping blanks exactly when it was in the string |
| Segmenter.Collapse | app.py:296 | `re.sub(r'[ \t]+', ' ', item)`: no tab and no two spaces in a row; empty exactly when the input is empty; starts with a space exactly when the input starts with a blank |
| Segmenter.CollapseBlankRun | app.py:296 | a maximal run of blanks between two parts becomes one space between their collapses: `Collapse(a + r + b) == Collapse(a) + " " + Collapse(b)` |
| Segmenter.CollapseAppend | app.py:296 | collapsing works piecewise across a cut after a non-blank character |
| Segmenter.CollapseNonBlanks | app.py:296 | collapsing keeps every non-blank character, in order |
| Segmenter.CollapseLength | app.py:296 | a string with no two blanks in a row keeps its length when collapsed |
| Segmenter.ExtractContentItems | app.py:269-308 | the loop program returns `Segment(text)` |
| Segmenter.CollectItems | app.py:279-297 | the loop over lines builds `all_items` as `Candidates(lines)` |
| Segmenter.AppendLineItems | app.py:281-297 | one line appends its items to `all_items`, and a blank line appends nothing |
| Segmenter.AppendFragmentItems | app.py:290-297 | the loop over a line's fragments appends each fragment's item, in order |
| Segmenter.AppendFragmentItem | app.py:290-297 | a fragment is stripped of ` .,;:!?()`, kept only if at least 2 long with an ASCII letter, then collapsed and appended |
| Segmenter.Deduplicate | app.py:299-306 | the loop with its `seen` set returns the deduplicated list of `Dedup.DedupState` |
| Segmenter.FragmentItem | app.py:290-297 | the item one fragment gives, if any; stated by `FragmentItemKept` and `FragmentItemShape` |
| Segmenter.LineItems | app.py:281-297 | the items one line gives, none for a blank line; stated by `LineItemsShape` and `AppendLineItems` |
| Segmenter.Candidates | app.py:279-297 | `all_items` for the lines read so far; stated by `CandidatesShape` and `CollectItems` |
| Segmenter.Key | app.py:303 | the deduplication key `item.lower().strip()`; stated by `SegmentKeysDistinct` and `SegmentCoversCandidates` |
| Segmenter.Segment | app.py:269-308 | the result of `extract_content_items`; stated by `ExtractContentItems` and the `Segment` lemmas |
| Segmenter.CollapseKeepsLetter | app.py:294-296 | collapsing keeps an ASCII letter |
| Segmenter.CollapseNoNewline | app.py:296 | collapsing introduces no newline |
| Segmenter.CollapseWellFormed | app.py:294-296 | a kept fragment collapses to a well-formed item |
| Segmenter.StripFragmentShape | app.py:291 | trimming punctuation keeps a fragment newline-free and free of double blanks |
| Segmenter.FragmentItemShape | app.py:290-297 | every item a fragment gives is well formed |
| Segmenter.FragmentItemKept | app.py:294-296 | an item is given only when the trimmed fragment has 2 or more characters and an ASCII letter, and it is that fragment collapsed |
| Segmenter.FragmentItemsShape | app.py:290-297 | every item of a line's fragments is well formed |
| Segmenter.LineItemsShape | app.py:282-297 | every item of a line is well formed |
| Segmenter.CandidatesShape | app.py:279-297 | every item of `all_items` is well formed |
| Segmenter.SegmentItemShape | app.py:271-297 | every returned item is at least 2 long, contains an ASCII letter, holds no newline and no tab, and has no two spaces in a row |
| Segmenter.SegmentBlankText | app.py:271-272 | empty or whitespace-only text gives no items |
| Segmenter.SegmentKeysDistinct | app.py:299-306 | no two returned items have the same `lower().strip()` |
| Segmenter.SegmentCoversCandidates | app.py:299-306 | every candidate with a non-empty key has an item with the same key in the result |
| Segmenter.SplitRunsTwoSpaces | app.py:287 | two spaces separate two items on one line |
| Segmenter.StripByNoDoubleBlank | app.py:282 | stripping keeps a string free of double blanks |
| Segmenter.SinglySpacedLineIsOnePhrase | app.py:282-297 | a line with no two blanks in a row gives at most one item: its stripped self |
| Segmenter.CleanKeepsKept | app.py:275 | cleaning leaves text made only of kept characters unchanged |
| Segmenter.SegmentOneLine | app.py:269-308 | a single singly spaced line of kept characters is segmented as that line's one phrase |
| Segmenter.TrimBeforeCollapse | app.py:291-296 | the trim runs before the collapse, so `"abc\t("` yields the item `"abc "` with a trailing space |
| Segmenter.SegmentTrailingTab | app.py:269-308 | `extract_content_items("abc\t(")` returns `["abc "]`: items can end in whitespace |
| Segmenter.SegmentTrailingSpace | app.py:269-308 | `extract_content_items("abc ")` returns `["abc"]` |
| Segmenter.ResegmentingChangesItems | app.py:269-308 | segmenting an item again need not give it back: segmentation is not idempotent |
| ChapterFlow.StripNonBlank | app.py:416 | `[item.strip() for item in xs if item.strip()]` keeps at most as many entries, each non-blank with no whitespace at either end |
| ChapterFlow.StripNonBlankIndices | app.py:416 | the results are exactly the strips of the entries whose strip is non-empty, in increasing order of position: each result is such a strip, the positions increase, and every such entry has its result |
| ChapterFlow.StripNonBlankAbsent | app.py:449 | a character no entry holds is in no result |
| ChapterFlow.StripNonBlankTrimmed | app.py:416 | entries that are already trimmed pass through unchanged |
| ChapterFlow.ConfirmIdempotent | app.py:416 | confirming twice keeps what confirming once kept |
| ChapterFlow.ProcessItemsHaveNoComma | app.py:449 | no item read back from the parameter contains a `','` |
| ChapterFlow.HandOffExact | app.py:435-449 | join then split returns the list exactly when every item is trimmed, non-blank and comma-free (both directions) |
| ChapterFlow.ConfirmedHandOff | app.py:416-449 | confirmed items survive the hand-off exactly when none contains a `','` |
| ChapterFlow.CommaSplitsItem | app.py:435-449 | the single item `"a,b"` comes back as two items `"a"` and `"b"` |
| ChapterFlow.ConfirmItems | app.py:414-416 | the confirmed items; stated by `StripNonBlankIndices` and `ConfirmIdempotent` |
| ChapterFlow.ItemsParam | app.py:435 | the `items` query parameter; stated by `HandOffExact` |
| ChapterFlow.ProcessItems | app.py:448-449 | the items read back from the parameter; stated by `ProcessItemsHaveNoComma` and `HandOffExact` |
| TtsSettings.DefaultsInRange | app.py:109-116 | the lazy defaults pass every range check, and both dates are the creation time |
| TtsSettings.Defaults | app.py:109-116 | the lazy default row; stated by `DefaultsInRange` and `ConfigRow.constructor` |
| TtsSettings.FirstError | app.py:131-149 | the update fails exactly when timeout, rate, pitch or volume is present but does not parse; the first such field in source order is reported |
| TtsSettings.ApplyUpdate | app.py:122-156 | the reported error is the first conversion failure; the creation date never changes |
| TtsSettings.ApplyUpdateFields | app.py:126-154 | each field's new value: mode if valid, each number if the update got that far and it is given and in range, the voice and the stamp only when no conversion failed |
| TtsSettings.ApplyUpdateKeepsInRange | app.py:126-152 | an update keeps every field within its range |
| TtsSettings.AbsentFieldsUnchanged | app.py:126-152 | a field whose key is absent keeps its value |
| TtsSettings.ChangedFieldsWereGivenInRange | app.py:126-152 | a field changes only to a value given for it that passes its check |
| TtsSettings.ApplyUpdateIdempotent | app.py:122-156 | applying the same update twice, the second time at `t2`, gives the settings of applying it once at `t2` |
| TtsSettings.ToJsonForgetsOnlyDates | app.py:770-779 | two rows give the same JSON exactly when they agree on everything except the dates |
| TtsSettings.ToJson | app.py:770-779 | the `config` JSON object; stated by `ToJsonForgetsOnlyDates` |
| TtsSettings.ConfigRow.constructor | app.py:109-116 | a fresh row holds mode auto, timeout 8, rate 0.8, pitch 1.0, volume 1.0, no preferred voice, both dates now |
| TtsSettings.ConfigRow.Apply | app.py:126-154 | the in-place assignments leave the row and the error that `ApplyUpdate` describes |
| TtsSettings.ConfigRow.AssignMode | app.py:126-129 | `tts_mode` changes only to one of server, browser and auto |
| TtsSettings.ConfigRow.AssignTimeout | app.py:131-134 | `server_timeout` changes only to a value in 3..30; nothing else changes |
| TtsSettings.ConfigRow.AssignRate | app.py:136-139 | `browser_rate` changes only to a value in 0.1..10; nothing else changes |
| TtsSettings.ConfigRow.AssignPitch | app.py:141-144 | `browser_pitch` changes only to a value in 0..2; nothing else changes |
| TtsSettings.ConfigRow.AssignVolume | app.py:146-149 | `browser_volume` changes only to a value in 0..1; nothing else changes |
| TtsSettings.ConfigTable.GetTtsConfig | app.py:105-119 | an existing row is returned unchanged; otherwise a fresh row with the defaults is created and stored |
| TtsSettings.ConfigTable.UpdateTtsConfig | app.py:122-156 | the row, created if needed, is updated in place as `ApplyUpdate` describes |
| TtsSettings.ConfigTable.GetConfigJson | app.py:767-780 | GET returns the row's JSON, the defaults' JSON when there was no row |
| TtsSettings.ConfigTable.PostConfigJson | app.py:782-803 | POST answers 200 with the new row's JSON when every number parses, and 400 otherwise; the row holds the update's result either way |
| SpeechCache.CacheName | app.py:641-642 | the file name `cached_<digest>.mp3` |
| SpeechCache.StatusMeaning | app.py:636-715 | 503 exactly for the fallback replies, 200 exactly for success, and an error text exactly when not a success |
| SpeechCache.ServeKeepsFiles | app.py:630-715 | a request leaves the directory existing with the same permission, loses or changes no file, and adds only the word's file |
| SpeechCache.NoPermissionNoWork | app.py:636-638 | without write permission the reply is the 500 error and no file is read or written |
| SpeechCache.HitLeavesDirAlone | app.py:645-648 | an existing file, of any size, is a cached success with the directory untouched |
| SpeechCache.SuccessMeansFile | app.py:676-677 | a success names the word's file, which exists; a fresh success needs a new non-empty file |
| SpeechCache.RunningMeansTimeout | app.py:689-699 | a generation still running at the deadline gives the 503 timeout reply |
| SpeechCache.FinishedOutcome | app.py:676-715 | on a miss, a finished generation succeeds exactly when it raised nothing and left a non-empty file; otherwise the reply is the 503 fallback whose error carries the exception's text, or the empty-file text when nothing was raised |
| SpeechCache.DiedUnavailable | app.py:701-710 | on a miss, a thread ended by an exception its handler does not catch gives the 503 fallback with the text `TTS生成失败` |
| SpeechCache.CacheNameInjective | app.py:641-642 | two words share a file exactly when their digests are equal: the key is the raw, case-sensitive word |
| SpeechCache.ServedThenCached | app.py:645-648 | once a request leaves the word's file in place, the next request for that word is a cached hit |
| SpeechCache.EmptyFileLaterHit | app.py:645-679 | a generation that leaves an empty file fails, and the empty file is then served as a cached hit |
| SpeechCache.DigestCollisionShares | app.py:641-648 | two words with equal digests share audio: after one succeeds, the other is a hit on the same address |
| SpeechCache.AudioDirectory.TextToSpeech | app.py:630-715 | the endpoint's changes to the directory and its reply are those of `Serve` |
| SpeechCache.Serve | app.py:630-715 | the directory after one request and its reply; stated by the `SpeechCache` lemmas above |
| SpeechCache.Run | app.py:630-715 | a trace of requests and late writes gives one reply slot per event |
| SpeechCache.RunKeepsFiles | app.py:630-715 | over any trace the permission stays, the directory stays well formed, and no file disappears |
| SpeechCache.CachedStaysCached | app.py:645-648 | once a word's file exists, every later request for that word in any trace is a cached hit on the same address |
| Playback.ClientDefaultsMatchServer | static/js/main.js:31-38 | the client's fallback settings equal the JSON of the server's lazy defaults |
| Playback.LoadedConfigMeaning | static/js/main.js:22-53 | a successful reply's settings are stored as they are; any failure stores the server's defaults |
| Playback.LoadedConfig | static/js/main.js:22-53 | the settings the client keeps after loading; stated by `LoadedConfigMeaning` |
| Playback.ClientState.constructor | static/js/main.js:4 | the page starts with no settings |
| Playback.ClientState.LoadTtsConfig | static/js/main.js:22-53 | after loading, settings are always present: the reply's or the defaults |
| Playback.FindFirst | static/js/main.js:99-114 | `voices.find(p)`: the first index satisfying `p`, or none when no voice does |
| Playback.SelectVoicePreferred | static/js/main.js:92-123 | a preferred name that some voice has wins, and the first voice of that name is chosen |
| Playback.SelectVoiceFallback | static/js/main.js:109-114 | otherwise the first English default voice, or failing that the first English voice; none exactly when no voice is English |
| Playback.SelectVoice | static/js/main.js:92-123 | a chosen voice is one of the list, and either English or of the preferred name |
| Playback.UtteranceDefaultsMatchServer | static/js/main.js:66-86 | speaking before settings load sounds like speaking with the server's defaults |
| Playback.UtteranceUsesSettings | static/js/main.js:66-86 | the utterance speaks the text in en-US with the settings' rate, pitch and volume, and any voice chosen is one of the list |
| Playback.UtteranceFor | static/js/main.js:66-86 | the utterance spoken by the browser; stated by `UtteranceUsesSettings` and `UtteranceDefaultsMatchServer` |
| Playback.ChooseActionRules | static/js/main.js:220-309 | a disabled button does nothing; with no settings, browser if supported else nothing; browser mode never uses the server; server mode never uses the browser; auto uses the browser if supported, else the server |
| Playback.ChooseAction | static/js/main.js:220-309 | the engine a press leads to; stated by `ChooseActionRules` |
| Playback.PlayButton.Press | static/js/main.js:220-241 | a press follows `ChooseAction`; when speech starts, the button is disabled and shows a spinner; otherwise it is left as it was |
| Playback.PlayButton.Restore | static/js/main.js:234-239 | restoring enables the button and puts the saved icon back |
| Playback.ServerTimeoutMsRange | static/js/main.js:160 | the wait is 8000 ms with no settings, and between 3000 and 30000 ms for settings the update accepts |
| Playback.ServerTimeoutMs | static/js/main.js:160 | the client's wait for the server; stated by `ServerTimeoutMsRange` |
| Playback.ClientFollowsServer | static/js/main.js:172-210 | the client loads audio exactly when the server succeeded, and then from the word's file; every other reply is an HTTP error |
| Playback.ReadReply | static/js/main.js:172-210 | a status outside 200-299 is an HTTP error with that status, and only then; a 2xx body is loaded exactly when `success` holds and `audio_url` is non-empty, from that address; otherwise the reported message is the body's non-empty `error`, or "Audio generation failed" |

## Left out

- Flask routing, templates, flash messages, the session store and login are web plumbing. The item hand-off is modelled only as list transformations.
- SQLAlchemy persistence, commit and rollback, and schema bootstrap belong to a foreign library. The row is a plain object.
- TtsSettings.ConfigRow.Apply: a conversion that raises leaves the assignments made before it in the in-memory row, without the new stamp. The discard of the request session that follows is not modelled.
- `update_tts_config` stamps `updated_date` only when no conversion raised: the exception leaves the function before the stamp. This differs from a reading where every update re-stamps the row.
- Parsing by `int()` and `float()` is modelled as the `Field` datatype: absent, a parsed value, or unparsable. A non-string `preferred_voice` and a request body that is not a JSON object are not modelled.
- The call to `get_tts_config` inside `text_to_speech` (app.py:627) supplies the timeout used by the generation thread, which is an input here. When no row exists, that call also creates and commits the default row (app.py:107-118). `Serve` does not model this write.
- The Baidu translation, the dictionary lookups and MD5 request signing are network calls and wrappers over library code.
- gTTS, the generation thread, `join` with its timeout, and the socket timeout are concurrency and foreign synthesis. The thread's outcome is a `Generation` input, and a thread that outlives its request appears in traces as a `LateWrite` event.
- MD5 and its truncation to 8 hexadecimal digits are the `digest` parameter.
- The outer 500 exception path of `text_to_speech` and a failing `makedirs` are not modelled.
- The inner `except` around the generation (app.py:717-727) is not a separate case: it yields the same kind of 503 unavailable reply as a failed run.
- The Unicode tables behind `\w` and `str.lower()` are the `UnicodeDb` parameter. The worked examples state the facts they need about them as preconditions.
- The three copies of voice selection in main.js (lines 92-123, 359-388, 501-530) are the same rule, so the model has one `SelectVoice`.
- URL encoding of the word, the DOM, Bootstrap alerts, `speechSynthesis`, `fetch`, `AbortController`, `Audio` events and timers are browser APIs. The model keeps only the decisions they feed.
- The client's error callback can fire twice on a timeout, once from the timer and once from the aborted fetch. This is not modelled.
- The client never reads a reply's `fallback` flag, as `ClientFollowsServer` shows: a 503 reply is rejected as an HTTP error before its body is read. It reads `cached` only to log a message (static/js/main.js:189), so the model leaves that flag out.
- Items can end in whitespace (`SegmentTrailingTab`), and segmenting an item again can change it (`ResegmentingChangesItems`). Both follow the code, where the punctuation trim runs before the collapse.
- The cache key is the digest of the raw word. It is case-sensitive and not normalised (`CacheNameInjective`).
