# natural-reader: a verified model of the reading session and the book library

natural-reader is a browser PDF reader that reads a page aloud, sentence by sentence.
It has two voices:
- a local synthesis server (the "Kokoro" mode, `isLocalhost`), which returns one audio clip per sentence;
- the browser's own speech synthesis.

This project models the two parts of the program that hold its logic:

- **The reading session** (`src/App.jsx`). This covers:
  - the sentence extractor of `renderPage`;
  - the audio cache (`clearCache`, `fetchAudio`, `prefetchBuffer`);
  - the playback loop `playLoop`, with the effect that starts and cancels it;
  - the play/pause, stop, skip and click handlers, page navigation, and the key commands that move the cursor;
  - reading progress: the percentage, the record saved per document, and the restore when a document is opened again.
- **The book library** (`src/db.js`): the IndexedDB object store `books` and the operations `saveBook`, `cleanupOldBooks`, `getBook`, `getRecentBooks`, `deleteBook` and `updateBookMeta`.

## How the model is organised

| file | module | form |
|---|---|---|
| `common.dfy` | `Common` | `Option`, and the UTF-16 code units that JavaScript's `length` and IndexedDB's key order count |
| `sentences.dfy` | `Sentences` | pure functions and lemmas: join, collapse whitespace, split after `.`/`!`/`?`, keep the substantial pieces |
| `progress.dfy` | `Progress` | pure functions and lemmas: percent complete in exact integer arithmetic, the progress record, the seven-day freshness rule, the restore decision |
| `playback.dfy` | `Playback` | the session as a state machine: a `State` value and one transition function per event, the concurrency invariant `Sound` with one lemma per event that keeps it, for the code as written and for the corrected cache write, and the session invariant `Inv` (`Sound` and a faithful cache) of the corrected program |
| `playback_properties.dfy` | `PlaybackProperties` | lemmas about the transition functions: what the loop, a failure, a stale callback, a command or a render does |
| `session.dfy` | `Reader` | `class Session`, whose methods update its fields step by step and are proved to reach the state the transition function gives, keeping `Inv` |
| `library.dfy` | `Library` | `class BookStore` over a `map<string, Book>` keyed by `fileName`, with the queries as functions and the eviction rule proved about the key and index order |

**Session state.** The session's state is grouped as the code uses it:
- `Doc`: the page's sentences (`textItems`), the cursor, the page, the page count and the file name. `currentSentenceIndex` and `playbackIndexRef` are kept equal by the effect at `src/App.jsx:429-431`, so they are one field.
- `Controls`: `isPlaying`, the mode, the voice, the speed and the status.
- `Audio`: the audio element, paused or playing, its clip, and the run whose `onended` it carries.
- `speech`: the utterance being spoken, if any.
- `Net`: the cache, the requests in flight, and the pending 2 s retry timers.
- `Effects`: the current run and the effects' last dependencies.
- `Storage`: the saved progress records and the pending 500 ms restore timers.

**Runs and callbacks.** Each run of the playback effect gets a number, `epoch`.
- The closure flag `active` of run `e` is true exactly while `epoch == e`.
- Every callback remembers its run: the `onended` of the clip and of the utterance, the retry timer, and the request it awaits.
- A callback acts only while its run is current.
- A run keeps the values its closure captured (the sentence list, page, page count, mode, voice and speed), because the loop goes on reading them after the live state has changed.

**Events.** Asynchrony becomes discrete events (`Playback.Event`, `Playback.Next`):
- a React commit (`Render`), which runs the progress effect and then the playback effect when their dependencies changed;
- each command;
- the end of `renderPage` (`PageRendered`), which is separate from the page change that starts the render;
- a request finishing, with success or failure;
- the clip ending or being refused;
- the utterance ending;
- a retry timer and a restore timer firing.

**Network and devices.** A request's outcome is a parameter of `FetchDone`. A successful clip is the value `Clip(text, voice, speed)` the request asked for.

## Model

| member | source | states |
|---|---|---|
| Common.Units | src/App.jsx:263 | a character is one UTF-16 code unit below U+10000 and a surrogate pair above, the pair starting with a leading surrogate exactly when there are two units |
| Common.Utf16 | src/App.jsx:263 | a string has between its character count and twice that many code units |
| Common.UnitsInjective | src/db.js:22 | different characters have different code units |
| Common.Utf16Injective | src/db.js:22 | different strings have different code-unit sequences, so comparing keys by code units loses no distinction |
| Sentences.DropSpaces | src/App.jsx:261 | the rest of the text after its leading run of whitespace: a suffix that starts with a visible character, every dropped character being whitespace |
| Sentences.Collapse | src/App.jsx:261 | `.replace(/\s+/g, ' ')`, every maximal whitespace run becoming one space; its properties are CollapseIsCollapsed, CollapseKeepsVisible and CollapseFixesCollapsed |
| Sentences.CollapseIsCollapsed | src/App.jsx:261 | after `.replace(/\s+/g, ' ')` the only whitespace is the plain space, no two spaces are adjacent, and the text is empty exactly when the input is |
| Sentences.CollapseKeepsVisible | src/App.jsx:261 | collapsing keeps every non-whitespace character, in order |
| Sentences.CollapseFixesCollapsed | src/App.jsx:261 | collapsing already collapsed text changes nothing (idempotence, with CollapseIsCollapsed) |
| Sentences.EndOfSeparator | src/App.jsx:262 | the greedy `\s+` separator: the whole run of whitespace from a position, ending before a visible character or at the end |
| Sentences.SplitFrom | src/App.jsx:262 | `.split(/(?<=[.!?])\s+/)` scanning from a position yields at least one piece |
| Sentences.SplitFromPieces | src/App.jsx:262 | no piece holds whitespace following `.`, `!` or `?`, and every piece but the last is non-empty and ends in `.`, `!` or `?` |
| Sentences.Split | src/App.jsx:262 | `.split(/(?<=[.!?])\s+/)` of the whole text; its properties are SplitPieces and SplitRejoins |
| Sentences.SplitPieces | src/App.jsx:262 | the same for the whole split |
| Sentences.SplitFromRejoins | src/App.jsx:261-262 | on collapsed text, the pieces from a position joined by single spaces give back the text from that position |
| Sentences.SplitRejoins | src/App.jsx:261-262 | on collapsed text, the split pieces joined by single spaces give back exactly the text |
| Sentences.PageTextRejoins | src/App.jsx:257-262 | for any fragments of a page, the pieces of the collapsed joined text rejoin to that text, which keeps every visible character of the fragments |
| Sentences.TrimStart | src/App.jsx:263 | the start of `trim`; its property is TrimStartDrops |
| Sentences.TrimStartDrops | src/App.jsx:263 | the start of `trim` drops exactly the leading whitespace: a suffix that is empty or starts with a visible character remains |
| Sentences.TrimEnd | src/App.jsx:263 | the end of `trim`; its property is TrimEndDrops |
| Sentences.TrimEndDrops | src/App.jsx:263 | the end of `trim` drops exactly the trailing whitespace: a prefix that is empty or ends with a visible character remains |
| Sentences.Trim | src/App.jsx:263 | `String.prototype.trim`, the two ends dropped in turn; its property is TrimKeepsVisible |
| Sentences.TrimKeepsVisible | src/App.jsx:263 | trimming removes only whitespace, keeping every visible character in order, and leaves none at either end |
| Sentences.Keep | src/App.jsx:263 | `.filter(s => s.trim().length > 5)` keeps exactly the pieces whose trimmed length, counted in UTF-16 code units as `length` counts, is over 5, untrimmed, and no more pieces than it was given |
| Sentences.KeepCountsCodeUnits | src/App.jsx:263 | a piece of four characters, two of them past U+FFFF, has length six and is kept |
| Sentences.KeepAppend | src/App.jsx:263 | the filter distributes over concatenation, so the kept list is the in-order sub-list |
| Sentences.Extract | src/App.jsx:257-263 | the page's sentence list: the item strings joined by spaces, collapsed, split after `.`/`!`/`?`, and the substantial pieces kept; its properties are ExtractedSentences and PageTextRejoins |
| Sentences.ExtractedSentences | src/App.jsx:257-263 | every extracted sentence is substantial, holds no separator, and is one of the split pieces of the collapsed page text |
| Progress.Percent | src/App.jsx:398-401 | `Math.round(((c + 1) / n) * 100)` in exact arithmetic: the unique `r` with `2n·r <= 200(c + 1) + n < 2n(r + 1)` (round half up), and 0 when there are no sentences; the source's double arithmetic is under Left out |
| Progress.PercentInRange | src/App.jsx:398-401 | for `-1 <= c < n` the percentage lies in [0, 100], is 0 before the first sentence and 100 on the last |
| Progress.PercentMonotone | src/App.jsx:398-401 | moving the cursor forward never lowers the percentage |
| Progress.RecordOnChange | src/App.jsx:129-138 | a record is written exactly when a document is open and the page is positive, holding that page, the cursor and the time |
| Progress.LoadProgress | src/App.jsx:141-155 | a stored record is returned exactly when it is less than seven days old, and unchanged |
| Progress.RestoreDecision | src/App.jsx:293-308 | the document resumes exactly when a fresh record exists whose page the document has, at that page and index; otherwise it starts over |
| Progress.RestoredCursor | src/App.jsx:297-302 | the deferred restore puts the saved index back only when it is non-negative |
| Progress.SavedPositionResumes | src/App.jsx:129-155 | a position written while reading comes back when the document is reopened within a week and still has the page |
| Progress.StalePositionIgnored | src/App.jsx:141-155 | a position written eight days earlier is ignored and the document starts over |
| Playback.Initial | src/App.jsx:67-99 | the mounted session: cursor -1, page 1, not playing, empty cache, nothing sounding |
| Playback.ClearCache | src/App.jsx:321-324 | `clearCache` empties the cache and changes nothing else |
| Playback.FetchAudio | src/App.jsx:326-354 | `null` and no request for an index outside the run's list; the cached clip and no request on a hit; otherwise exactly one new request for the run's sentence in the run's voice and speed |
| Playback.PrefetchOne | src/App.jsx:360-363 | one look-ahead slot adds one unawaited request exactly when the target exists and is not cached, and otherwise changes nothing |
| Playback.PrefetchFrom | src/App.jsx:359-364 | the look-ahead loop only appends requests that nobody awaits |
| Playback.Prefetch | src/App.jsx:356-365 | `prefetchBuffer` is a no-op in system-voice mode and otherwise only appends unawaited requests |
| Playback.CacheWrite | src/App.jsx:348 | the corrected write: the cache gains the finished clip only while it is the audio of the sentence now at that index, in the current voice and speed |
| Playback.CacheWriteAsWritten | src/App.jsx:348 | the write as the code does it: the cache becomes the old cache with the clip under its index, whatever it was requested for, and nothing else changes |
| Playback.StopPlayback | src/App.jsx:380-387 | `stopPlayback`: not playing, cursor -1, nothing sounding, status "Playback Stopped" |
| Playback.SaveEffect | src/App.jsx:129-138 | the progress effect changes only the saved records and its own dependencies |
| Playback.StartRun | src/App.jsx:434-499 | a new run: the epoch moves on by one (the old run's `active` becomes false), and the run captures the render's list, page, page count and mode |
| Playback.Continue | src/App.jsx:467-482 | the current run's reaction to `fetchAudio`'s answer: a clip plays at once, owned by the run; no clip sets the run's retry timer and the "Connection Error - Retrying..." status; stated by LoopHit, FailedFetchWaits and ContinueKeeps |
| Playback.PlayLoop | src/App.jsx:439-492 | one step of `playLoop` for the current run: turn the page, end the document, or move to the next sentence, prefetch and fetch or speak it; stated by LoopAdvances, LoopTurnsPage, LoopEndsDocument, LoopRequests, LoopHit, LoopSpeaks and PlayLoopKeeps |
| Playback.PlaybackEffect | src/App.jsx:434-499 | the playback effect: nothing when its dependencies are unchanged, else a new run that steps only while playing and silent; stated by NewRunStepsOnlyWhenSilent and RerunWhileSoundingStalls |
| Playback.Commit | src/App.jsx:129-138 | a commit runs the progress effect, then the playback effect (lines 434-499); stated by CommitWithoutRerun, CommitWithRerun and CommitKeeps |
| Playback.PlayPause | src/App.jsx:367-378 | `handlePlayPause`: pausing stops the clip and the utterance and keeps the cursor, playing only sets the flag; stated by PauseThenResume, StopThenPlay and PlayPauseKeeps |
| Playback.SkipNext | src/App.jsx:389-395 | `skipToNextSentence`: below the last sentence, silence and one sentence on, else nothing; stated by SkipNextBounded and SkipNextWhilePlayingStalls |
| Playback.SkipBack | src/App.jsx:557 | the skip-back button moves the cursor to max(-1, c - 2); stated by SkipBackVersusShiftLeft and BackClamps |
| Playback.ShiftLeft | src/App.jsx:178 | Shift+← moves the cursor to max(-1, c - 1); stated by SkipBackVersusShiftLeft and BackClamps |
| Playback.ClickSentence | src/App.jsx:759 | clicking sentence i sets the cursor to i - 1 and starts playing; stated by ClickWhilePlaying and ClickKeeps |
| Playback.NavigatePage | src/App.jsx:187-190 | Page Up/Down and the page buttons clamp the page to [1, numPages], the page box takes only a page in range (also lines 786-809); stated by PageNavigationKeepsCursor |
| Playback.ReplaceSentences | src/App.jsx:257-268 | the end of `renderPage`: the extracted sentences replace the list and the cache is cleared; stated by PageTurnReplaysOldFirstSentence, EmptyPageCascades, LateCompletion and ReplaceKeeps |
| Playback.ToggleMode | src/App.jsx:606 | the mode button flips between the server voice and the system voice; stated by NavigateKeeps |
| Playback.SelectVoice | src/App.jsx:693 | choosing a voice sets it and clears the cache; stated by SettingsKeep |
| Playback.SelectSpeed | src/App.jsx:705 | choosing a speed sets it and clears the cache; stated by SettingsKeep |
| Playback.OpenDocument | src/App.jsx:288-308 | a loaded document resumes at its saved page with a pending restore of the index, or starts over at page 1 and cursor -1; stated by ReopenResumes, OpenWithoutRecordStartsOver and OpenKeeps |
| Playback.RestoreTimer | src/App.jsx:297-302 | the restore timer sets the saved index when it is non-negative; stated by ReopenResumes and RestoreKeeps |
| Playback.FetchDone | src/App.jsx:464-482 | a completed request, with the corrected cache write, answered only for the run that awaits it; stated by FetchDoneCaches, FailedFetchWaits, StaleFetchIgnored and FetchDoneKeeps (also lines 341-352) |
| Playback.FetchDoneAsWritten | src/App.jsx:341-352 | a completed request with the unconditional cache write; stated by FetchDoneAsWrittenCaches, FetchDoneAsWrittenKeeps and LateClipPlaysWrongSentence |
| Playback.AudioEnded | src/App.jsx:470-472 | the clip's `onended` steps the loop only for the run that set it; stated by StaleSoundIgnored, ClickWhilePlaying and SoundEndedKeeps |
| Playback.AudioBlocked | src/App.jsx:473-476 | a refused `play()` leaves the clip paused and the status "Wait for interaction..."; stated by SoundEndedKeeps |
| Playback.SpeechEnded | src/App.jsx:487-489 | the utterance's `onend` steps the loop only for the run that spoke it; stated by StaleSoundIgnored and SoundEndedKeeps |
| Playback.RetryFires | src/App.jsx:479-481 | the retry timer steps the loop only for the run that set it; stated by RetryIsStep, StaleRetryIgnored, FailedFetchIsSkipped and RetryFiresKeeps |
| Playback.Next | src/App.jsx:434-499 | the session's transition on one event, with the corrected cache write; stated by NextKeepsInv |
| Playback.NextAsWritten | src/App.jsx:341-352 | the session's transition as written, a completion storing whatever clip it brought; stated by NextAsWrittenKeepsSound and LateClipPlaysWrongSentence |
| Playback.InitialInv | src/App.jsx:67-99 | the mounted session satisfies the invariant |
| Playback.PrefetchedBusy | src/App.jsx:356-365 | prefetching adds nothing that keeps playback going |
| Playback.PlayLoopKeeps | src/App.jsx:439-492 | a step of the loop adds at most one sound or one pending step of the current run, and keeps a faithful cache faithful |
| Playback.CommitKeeps | src/App.jsx:434-499 | a commit (progress effect, then playback effect) keeps the concurrency invariant `Sound`, and a faithful cache faithful (also lines 129-138) |
| Playback.AnsweredKeeps | src/App.jsx:464-482 | the awaiting run's answer to a completion keeps `Sound` whatever the cache then holds, and changes neither the cache, the document, the voice nor the speed |
| Playback.FetchDoneKeeps | src/App.jsx:464-482 | with the corrected cache write, a completion keeps the whole invariant `Inv`: `Sound` and a faithful cache |
| Playback.FetchDoneAsWrittenKeeps | src/App.jsx:341-352 | as written, a completion keeps `Sound`: the unconditional write adds nothing that keeps playback going |
| Playback.RetryFiresKeeps | src/App.jsx:479-481 | a retry firing keeps the concurrency invariant `Sound`, and a faithful cache faithful |
| Playback.SoundEndedKeeps | src/App.jsx:470-489 | the end of the clip or the utterance and a refused clip keep the concurrency invariant `Sound`, and a faithful cache faithful |
| Playback.PlayPauseKeeps | src/App.jsx:367-387 | play/pause and stop keep the concurrency invariant `Sound`, and a faithful cache faithful |
| Playback.SkipKeeps | src/App.jsx:389-395 | skip-next, the skip-back button and Shift+← keep the concurrency invariant `Sound`, and a faithful cache faithful (also lines 178, 557) |
| Playback.ClickKeeps | src/App.jsx:759 | clicking a sentence keeps the concurrency invariant `Sound`, and a faithful cache faithful |
| Playback.NavigateKeeps | src/App.jsx:187-190 | page navigation and the mode button keep the concurrency invariant `Sound`, and a faithful cache faithful (also lines 606, 786-809) |
| Playback.ReplaceKeeps | src/App.jsx:257-268 | the page's new sentences (with the cache cleared) keep the concurrency invariant `Sound`, and a faithful cache faithful |
| Playback.SettingsKeep | src/App.jsx:693 | choosing a voice or a speed (with the cache cleared) keeps the concurrency invariant `Sound`, and a faithful cache faithful (also line 705) |
| Playback.OpenKeeps | src/App.jsx:288-308 | opening a document keeps the concurrency invariant `Sound`, and a faithful cache faithful |
| Playback.RestoreKeeps | src/App.jsx:297-302 | the restore timer keeps the concurrency invariant `Sound`, and a faithful cache faithful |
| Playback.NextKeepsInv | src/App.jsx:434-499 | with the corrected write, every event keeps `Inv`: the clip and the utterance never sound together, the current run never has two steps pending, and every cached clip is its sentence's audio |
| Playback.NextAsWrittenKeepsSound | src/App.jsx:434-499 | for the code as written, every event keeps `Sound`: the clip and the utterance never sound together and the current run never has two steps pending, however stale the cached clips |
| PlaybackProperties.LoopAdvances | src/App.jsx:441-460 | within the page, the loop moves the cursor to c+1, keeps the page and the run, and stays playing |
| PlaybackProperties.LoopTurnsPage | src/App.jsx:443-448 | past the last sentence of a page that is not the last, the page becomes page+1 and the cursor -1, status "Changing Page..." |
| PlaybackProperties.LoopEndsDocument | src/App.jsx:449-452 | past the last sentence of the last page, playback stops with cursor -1 and status "End of Document" |
| PlaybackProperties.PrefetchRequests | src/App.jsx:356-365 | the look-ahead asks for exactly c+1 and c+2 when they exist and are not cached, in that order, awaited by nobody; nothing in system-voice mode |
| PlaybackProperties.LoopRequests | src/App.jsx:458-464 | in server mode a step asks only for sentences after the old cursor; the request the run awaits, if any, is the last one and is for the new cursor |
| PlaybackProperties.FailedFetchWaits | src/App.jsx:477-481 | a failed request the current run awaits leaves the cursor and sets one retry timer of that run |
| PlaybackProperties.RetryIsStep | src/App.jsx:479-481 | the current run's retry is one more step of the loop |
| PlaybackProperties.FailedFetchIsSkipped | src/App.jsx:458-481 | after a failed request for the sentence under the cursor, the retry steps from the cursor, so it asks for the next sentence and never again for the failed one |
| PlaybackProperties.StaleFetchIgnored | src/App.jsx:464-465 | a request that completes after its run was replaced only updates the cache |
| PlaybackProperties.StaleSoundIgnored | src/App.jsx:470-489 | the end of a clip or an utterance started by an earlier run does not step the loop |
| PlaybackProperties.StaleRetryIgnored | src/App.jsx:479-481 | a retry timer set by an earlier run does nothing when it fires |
| PlaybackProperties.NewRunStepsOnlyWhenSilent | src/App.jsx:494-498 | a new run steps at once when playing and nothing is sounding; otherwise it only replaces the old run, leaving cursor, sound and requests as they were |
| PlaybackProperties.RerunWhileSoundingStalls | src/App.jsx:494-499 | a new run started while the clip plays leaves nothing to step the loop: when the clip ends, playback stands still while still "playing" |
| PlaybackProperties.SkipNextWhilePlayingStalls | src/App.jsx:389-395 | skipping while playing silences the sound, which then never ends, so no step follows (also line 494) |
| PlaybackProperties.SkipBackVersusShiftLeft | src/App.jsx:557 | the button sets the cursor to max(-1, c-2) and Shift+← to max(-1, c-1): the button replays the previous sentence, the key the current one (also line 178) |
| PlaybackProperties.BackClamps | src/App.jsx:557 | neither goes below -1 (also line 178) |
| PlaybackProperties.PageNavigationKeepsCursor | src/App.jsx:187-190 | manual page navigation keeps the cursor and stays within [1, numPages] (also lines 786-809) |
| PlaybackProperties.SkipNextBounded | src/App.jsx:389-395 | skip-next adds 1 only below the last sentence, silencing the sound, and otherwise changes nothing |
| PlaybackProperties.CommitWithoutRerun | src/App.jsx:499 | a render that changes none of the playback effect's dependencies only saves progress |
| PlaybackProperties.CommitWithRerun | src/App.jsx:434-499 | a render that changes them starts a new run, which steps only while playing and silent |
| PlaybackProperties.LoopHit | src/App.jsx:464-472 | a step that finds its clip cached plays it at once, owned by the current run |
| PlaybackProperties.LoopSpeaks | src/App.jsx:483-491 | in system-voice mode a step speaks the run's next sentence at the run's speed |
| PlaybackProperties.PauseThenResume | src/App.jsx:367-378 | pause keeps the cursor, and playing again plays the sentence after the interrupted one (also line 494) |
| PlaybackProperties.StopThenPlay | src/App.jsx:380-387 | after stop, playing again starts the page from its first sentence (also line 494) |
| PlaybackProperties.ClickWhilePlaying | src/App.jsx:759 | clicking sentence i sets the cursor to i-1 and playing; while a clip plays no new run starts, and sentence i plays when the clip ends |
| PlaybackProperties.PageTurnReplaysOldFirstSentence | src/App.jsx:443-499 | after an automatic page turn the new run starts before the new page's sentences arrive and plays the old list's first sentence again (also lines 275-277) |
| PlaybackProperties.EmptyPageCascades | src/App.jsx:443-499 | on a page without sentences the loop turns the page twice before any text arrives |
| PlaybackProperties.CacheHitPlaysCurrentSentence | src/App.jsx:464-469 | with a faithful cache, a hit plays the audio of the sentence the cursor moves to, in the current voice and speed (also line 328) |
| PlaybackProperties.FetchDoneCaches | src/App.jsx:341-352 | a completion adds its clip under its index exactly when it succeeded and the clip is the audio of the sentence now at that index in the current voice and speed; otherwise the cache is unchanged |
| PlaybackProperties.FetchDoneAsWrittenCaches | src/App.jsx:341-352 | as written, a success adds its clip under its index whatever it is, and a failure leaves the cache unchanged |
| PlaybackProperties.AsWrittenStoresForeignClip | src/App.jsx:348 | as written, storing a clip of another sentence leaves the cache unfaithful, where the corrected write leaves the session as it was |
| PlaybackProperties.RenderPlaysCached | src/App.jsx:494-499 | a render after the sentence list changed, while playing with nothing sounding, starts a run that plays the cached clip of the next sentence at once (also lines 464-469) |
| PlaybackProperties.LateCompletion | src/App.jsx:348 | when the new page's sentences arrive and then an old request completes, the cache as written holds exactly that clip under its index, and with the corrected write only if it is the audio of that index's sentence (also line 267) |
| PlaybackProperties.LateClipPlaysWrongSentence | src/App.jsx:348 | as written, along the events page rendered, old request completed, render: the old page's clip lands under the new page's index, the cache is unfaithful, and the new run plays that clip for the new sentence; with the corrected write the clip is not cached (also lines 267, 494) |
| PlaybackProperties.FetchDoneKeepsCacheFaithful | src/App.jsx:348 | with the corrected write, every completion keeps each cached clip the audio of its sentence |
| PlaybackProperties.ReopenResumes | src/App.jsx:293-302 | a position saved by the progress effect comes back when the document is reopened within a week: the page at once, the cursor when the restore timer fires (also lines 129-138) |
| PlaybackProperties.OpenWithoutRecordStartsOver | src/App.jsx:304-308 | without a fresh record for a page the document has, it starts on page 1 before the first sentence |
| Reader.Session.constructor | src/App.jsx:67-99 | the mounted session is `Initial` and satisfies the invariant |
| Reader.Session.ReadingProgress | src/App.jsx:398-401 | 0 for an empty page, within [0, 100] for a cursor in range, 100 on the last sentence |
| Reader.Session.ClearCache | src/App.jsx:321-324 | the session after `clearCache` is `Playback.ClearCache` of the one before |
| Reader.Session.FetchAudio | src/App.jsx:326-354 | state and answer are those of `Playback.FetchAudio` |
| Reader.Session.Prefetch | src/App.jsx:356-365 | the two-slot loop reaches `Playback.Prefetch` (loop invariant on the remaining slots) |
| Reader.Session.CacheWrite | src/App.jsx:348 | reaches `Playback.CacheWrite` |
| Reader.Session.StopPlayback | src/App.jsx:380-387 | reaches `Playback.StopPlayback` |
| Reader.Session.Continue | src/App.jsx:467-482 | plays the clip or sets the retry timer, as `Playback.Continue` |
| Reader.Session.PlayLoop | src/App.jsx:439-492 | reaches `Playback.PlayLoop` |
| Reader.Session.SaveEffect | src/App.jsx:129-138 | reaches `Playback.SaveEffect` |
| Reader.Session.PlaybackEffect | src/App.jsx:434-499 | reaches `Playback.PlaybackEffect` |
| Reader.Session.Commit | src/App.jsx:434-499 | reaches `Playback.Commit` and keeps the invariant (also lines 129-138) |
| Reader.Session.PlayPause | src/App.jsx:367-378 | reaches `Playback.PlayPause` and keeps the invariant |
| Reader.Session.Stop | src/App.jsx:380-387 | reaches `Playback.StopPlayback` and keeps the invariant |
| Reader.Session.SkipNext | src/App.jsx:389-395 | reaches `Playback.SkipNext` and keeps the invariant |
| Reader.Session.SkipBack | src/App.jsx:557 | reaches `Playback.SkipBack` and keeps the invariant |
| Reader.Session.ShiftLeft | src/App.jsx:178 | reaches `Playback.ShiftLeft` and keeps the invariant |
| Reader.Session.ClickSentence | src/App.jsx:759 | reaches `Playback.ClickSentence` and keeps the invariant |
| Reader.Session.NavigatePage | src/App.jsx:187-190 | reaches `Playback.NavigatePage` and keeps the invariant (also lines 786-809) |
| Reader.Session.ReplaceSentences | src/App.jsx:257-268 | reaches `Playback.ReplaceSentences` and keeps the invariant |
| Reader.Session.ToggleMode | src/App.jsx:606 | reaches `Playback.ToggleMode` and keeps the invariant |
| Reader.Session.SelectVoice | src/App.jsx:693 | reaches `Playback.SelectVoice` and keeps the invariant |
| Reader.Session.SelectSpeed | src/App.jsx:705 | reaches `Playback.SelectSpeed` and keeps the invariant |
| Reader.Session.OpenDocument | src/App.jsx:288-308 | reaches `Playback.OpenDocument` and keeps the invariant |
| Reader.Session.RestoreTimer | src/App.jsx:297-302 | reaches `Playback.RestoreTimer` and keeps the invariant |
| Reader.Session.FetchDone | src/App.jsx:464-482 | reaches `Playback.FetchDone`, with the corrected cache write, and keeps the invariant (also lines 341-352) |
| Reader.Session.AudioEnded | src/App.jsx:470-472 | reaches `Playback.AudioEnded` and keeps the invariant |
| Reader.Session.AudioBlocked | src/App.jsx:473-476 | reaches `Playback.AudioBlocked` and keeps the invariant |
| Reader.Session.SpeechEnded | src/App.jsx:487-489 | reaches `Playback.SpeechEnded` and keeps the invariant |
| Reader.Session.RetryFires | src/App.jsx:479-481 | reaches `Playback.RetryFires` and keeps the invariant |
| Library.Strip | src/db.js:112 | the listed record is the stored one without `data`, every other field kept |
| Library.Spread | src/db.js:39-45 | the object spread `{...b, ...m}`: every field `m` names replaces the record's (also line 165); stated by NewRecord and Updated |
| Library.NewRecord | src/db.js:39-45 | the record `saveBook` writes: `file.name`, the bytes, `file.size` and `now`, each overridden by the caller's metadata when it names that field |
| Library.Updated | src/db.js:158-162 | `{...book, ...updates, lastOpened: now}`: `lastOpened` is `now` even when `updates` names it; name, size and data are the update's when it names them, and every extra field is the update's value when it has one and the book's otherwise |
| Library.KeyBefore | src/db.js:22 | IndexedDB's order on string keys, lexicographic on UTF-16 code units; stated by KeyBeforeAsymmetric, KeyBeforeTransitive, KeyBeforeTotal and SupplementaryBeforeHighBmp |
| Library.KeyBeforeAsymmetric | src/db.js:22 | the order on string keys, by UTF-16 code units, is asymmetric |
| Library.KeyBeforeTransitive | src/db.js:22 | the order on string keys, by UTF-16 code units, is transitive |
| Library.KeyBeforeTotal | src/db.js:22 | two different keys are ordered one way or the other, since different strings have different code units |
| Library.SupplementaryBeforeHighBmp | src/db.js:22 | U+10000 sorts before U+FFFF, as code units compare, although its code point is larger |
| Library.First | src/db.js:103 | a non-empty set of keys has a first key, before every other |
| Library.InKeyOrder | src/db.js:103 | the keys in key order: each key exactly once |
| Library.InKeyOrderAscending | src/db.js:103 | each key comes before every later one |
| Library.InsertSorted | src/db.js:192 | inserting into a sorted list keeps it sorted |
| Library.SortBy | src/db.js:192 | `Array.prototype.sort` with a numeric comparator: a sorted permutation of its input (also line 113) |
| Library.Listing | src/db.js:103 | `store.getAll()`: one entry per record, each a stored record, none twice |
| Library.ListingCovers | src/db.js:103 | the listing leaves no record out |
| Library.OldestFirst | src/db.js:185-192 | the records oldest first: every record once, sorted by `lastOpened`, names pairwise different |
| Library.OldestFirstCovers | src/db.js:185-192 | the oldest-first list leaves no record out |
| Library.ToDelete | src/db.js:190-195 | the records `cleanupOldBooks` deletes, oldest first: all but the five most recently opened, none within the limit; stated by EvictedCount, EvictedAreOldest and FirstFailing |
| Library.Evicted | src/db.js:195 | the names of those records; stated by EvictedCount, EvictedStored and EvictedAreOldest |
| Library.EvictedCount | src/db.js:190-195 | nothing is chosen for deletion within the limit; past it exactly count - 5 names are chosen |
| Library.EvictedStored | src/db.js:195-198 | only stored names are chosen for deletion |
| Library.EvictedAreOldest | src/db.js:192-195 | every chosen record's `lastOpened` is at most every kept record's |
| Library.CleanupLeavesFive | src/db.js:190-202 | when every delete succeeds, exactly five records remain after a clean-up past the limit |
| Library.CleanupWithinLimit | src/db.js:190 | at five records or fewer the clean-up leaves the store as it is and resolves |
| Library.FirstFailing | src/db.js:196-202 | the position of the first delete that fails: every delete before it succeeds, and it fails unless it is past the end |
| Library.Cleaned | src/db.js:196-202 | the store after the clean-up as written: all chosen names go when no delete fails, else the aborted transaction leaves the store as it was; stated by CleanedAllOrNothing, FailedDeleteUndoesCleanup, CleanupWithinLimit and SavedBookSurvives |
| Library.CleanupResolves | src/db.js:196-202 | the clean-up resolves unless two or more deletes follow the first failed one: the next is still placed and aborted, the one after throws; stated by CleanupWithinLimit and BookStore.DeleteEach |
| Library.CleanedAllOrNothing | src/db.js:196-202 | as written, a clean-up in one transaction removes all chosen names when no delete fails and none when one does |
| Library.FailedDeleteUndoesCleanup | src/db.js:199-200 | as written, one failed delete leaves every record in place, so more than five stay |
| Library.CleanedIntended | src/db.js:199-200 | the clean-up the code intends: exactly the chosen names whose delete succeeds are removed, every other record kept as it was |
| Library.IntendedCleanupCount | src/db.js:190-202 | the intended clean-up past the limit keeps five records plus one per failed delete |
| Library.Put | src/db.js:51 | `store.put`: the record replaces whatever was under its name; every other record is kept (also line 165) |
| Library.Recent | src/db.js:111-113 | one entry per stored record, without `data`, sorted by `lastOpened` descending |
| Library.SavedBookSurvives | src/db.js:39-57 | a book saved now, when every other record is older, survives the clean-up that follows, as written and as intended, whichever deletes fail (also lines 190-202) |
| Library.UpdateKeepsRecords | src/db.js:158-168 | `updateBookMeta` removes no record and adds at most one; without a new name the keys stay the same |
| Library.BookStore.constructor | src/db.js:19-24 | a new store is empty |
| Library.BookStore.GetBook | src/db.js:72-90 | the record stored under the name, or `None` when there is none or the read fails; nothing changes |
| Library.BookStore.GetRecentBooks | src/db.js:96-118 | `Recent` of the store, or `[]` when the read fails |
| Library.BookStore.CleanupOldBooks | src/db.js:179-204 | the store becomes `Cleaned` of the old one, and the call resolves exactly when the index is read and fewer than two deletes follow a failed one; nothing changes when the index cannot be read |
| Library.BookStore.DeleteEach | src/db.js:196-202 | the delete loop in one transaction: every name goes when no delete fails; after a failed delete the next is still placed, the abort restores the store as before the loop, and the result is `false` exactly when another delete follows that one (loop invariants on the transaction's phase and the prefix deleted) |
| Library.BookStore.SaveBook | src/db.js:34-65 | stores the new record over any old one, then cleans up as `Cleaned`; `true` exactly when every step succeeds and the clean-up resolves (`CleanupResolves`: fewer than two deletes after a failed one); `false` with nothing changed when a step before the put fails |
| Library.BookStore.DeleteBook | src/db.js:124-142 | removes exactly that name, or nothing when the delete fails; `true` exactly when it succeeds |
| Library.BookStore.UpdateBookMeta | src/db.js:149-176 | `false` with nothing changed when the record is missing or a step fails; otherwise puts the updated record, with no clean-up |

## Left out

- PDF.js loading, page rendering and the canvas (`src/App.jsx:228-256`) are not modelled. Only the strings of a page's text items enter the model, as the `PageRendered` event. The "Rendering page..." and "Render Error" statuses are left out, and so is a render of an older page that finishes after a newer one.
- The network and binary handling of `fetchAudio` are not modelled: the HTTP request, the JSON and base64 decoding, and object URLs with their revocation. A request succeeds or fails as a parameter of its completion event. A success yields the clip asked for.
- The audio element and speech synthesis are modelled as two sounding flags with end events. Cancelling an utterance is assumed to discard it without firing its `onend`; a browser that fires it is not modelled. A refused `play()` may occur at any time while the clip is marked playing.
- Local storage JSON is not modelled: settings persistence, parsing, and a record whose text fails to parse (that case is the same as no record). Only the progress record's decision and contents are modelled.
- Zoom, fit mode, dark mode, volume, and the time-remaining and words-read statistics are left out (floating-point display arithmetic).
- The keyboard handler's input/select filter and its closure staleness are left out. That handler is re-created only on `[numPages, isPlaying]`, so it may see an old `textItems` in `skipToNextSentence`. The model applies every command to the live state.
- Timer durations (2 s retry, 500 ms restore) are not modelled. Timers are events that may fire at any time.
- `Playback.SelectSpeed` takes the playback speed as an integer, while the source parses a float. Only its identity matters to the cache, the request and the utterance. The `parseInt` of the page box becomes an integer argument, so a box that does not parse is not modelled.
- Disabled states of the page buttons are left out. With them the clamped updates change nothing.
- The engine initialisation is not modelled: the script tag and the "Ready to Open PDF" status.
- The IndexedDB plumbing is not modelled: opening, transactions and request callbacks.
  - A failing step is a boolean parameter of the operation.
  - In `Library.BookStore.SaveBook`, a failure to open the database, to read the file or to put the record is one flag, `stored`.
  - A delete that fails inside the clean-up is a name in `failing`.
  - A request's error event is dispatched with its transaction still active, and the promise callbacks that follow run within that dispatch. The uncancelled error aborts the transaction only after the dispatch returns.
- `cleanupOldBooks` sorts the array in place. This is modelled as the pure stable `Library.SortBy` over the records of the `lastOpened` index, read in key order. A stable sort of the key-ordered records gives the index order (by `lastOpened`, ties in key order).
- Non-string keys are not modelled; they do not occur, since `fileName` is always a string. String keys compare as IndexedDB compares them, by UTF-16 code units (`Common.Utf16`), not by code points.
- Progress.Percent: computes `Math.round(((c + 1) / n) * 100)` in exact arithmetic, rounding halves up. The source computes in doubles, where a product that should be a half can fall just below it and round down: for c = 22 and n = 40 the model gives 58 and the source 57. Floating point is not modelled.
- Playback.FetchDone, Playback.Next and Reader.Session.FetchDone use the corrected cache write of the Findings row, not the unconditional write at `src/App.jsx:348`. The code as written is `Playback.FetchDoneAsWritten` and `Playback.NextAsWritten`, proved to keep the concurrency invariant `Sound` but not a faithful cache.
- `server.py` and `vite.config.js` are not part of this model.

## Findings

| source | as written | input that shows it | evidently intended | confidence | as-written member | corrected member |
|---|---|---|---|---|---|---|
| src/App.jsx:348 | `fetchAudio` writes every successful clip into the cache under its index, even when `clearCache` has run since the request was sent (a page render, a voice or a speed change) | in server mode, a request for sentence 3 of page 1 is in flight when page 2's sentences arrive and clear the cache; it then completes, page 2's index 3 now holds page 1's clip, and the loop plays it when it reaches sentence 3 | a clip is cached only while it is still the audio of the sentence at that index, in the current voice and speed | not executed | PlaybackProperties.LateClipPlaysWrongSentence | PlaybackProperties.FetchDoneKeepsCacheFaithful |
| src/db.js:199-200 | the error handler of a clean-up delete resolves but does not cancel the error event, so under IndexedDB's rules the failed delete aborts the clean-up's transaction once its error event is dispatched: every delete made in it is undone, the delete placed during that dispatch is aborted, the one after it throws, and `saveBook` reports `false` | eight books stored after a save, so three deletes, and the delete of the oldest fails: the delete of the second oldest is placed and aborted, the delete of the third oldest throws, eight books remain and `saveBook` returns `false`; with seven books (two deletes) the clean-up resolves and `saveBook` returns `true`, but seven books remain | as the comment "Continue even on error" says: the other old books are still deleted, leaving five plus one per failed delete | not executed | Library.FailedDeleteUndoesCleanup | Library.IntendedCleanupCount |

The as-written write is `Playback.CacheWriteAsWritten`. The corrected write, `Playback.CacheWrite`, is the one the rest of the session model uses, and `Playback.CacheFaithful` is part of the session invariant `Playback.Inv`.

The clean-up as written is `Library.Cleaned`, which `Library.BookStore` uses, since the store's contents after a save are what a reader of the library sees. The intended clean-up is `Library.CleanedIntended`; `Library.SavedBookSurvives` holds for both.

**A failed request is skipped, not retried.** After a failed synthesis request the status reads "Connection Error - Retrying..." (`src/App.jsx:478`), and a timer calls `playLoop` again. But `playLoop` steps from the cursor that was already moved onto the failed sentence. So the retry asks for the next sentence, and the failed one is skipped. The model follows the code (`PlaybackProperties.FailedFetchIsSkipped`).

