/**
 * The reading session of `src/App.jsx` as a state machine. Every React state variable,
 * ref and browser object the playback loop touches is part of `State`; every callback,
 * timer, network completion and user command is an event with a transition function.
 *
 * A run of the playback effect (App.jsx:434-499) is numbered by `epoch`: the closure's
 * `active` flag of run `e` is true exactly while `epoch == e`. A callback remembers the
 * run that created it and acts only when that run is still current. The values the run's
 * closure captured (sentence list, page, page count, mode, voice, speed) are kept in
 * `run`, because the loop keeps reading them after the live state has moved on.
 */
module Playback {
  import opened Common
  import Sentences
  import Progress

  /** An audio clip as the synthesis server returns it for one request. */
  datatype Clip = Clip(text: string, voice: string, speed: int)

  /** A spoken utterance and the run whose `onend` handler it carries. */
  datatype Utterance = Utterance(text: string, rate: int, owner: nat)

  /** A request in flight; `awaitedBy` is the run awaiting it, `None` for a prefetch. */
  datatype Fetch = Fetch(index: int, clip: Clip, awaitedBy: Option<nat>)

  /** What a run of the playback effect captured when it started. */
  datatype Run = Run(items: seq<string>, page: int, numPages: int, server: bool, voice: string, speed: int)

  /** The playback effect's dependencies `[isPlaying, textItems, currentPage]`; `itemsGen` is the list's identity. */
  datatype Deps = Deps(playing: bool, itemsGen: nat, page: int)

  /** The progress effect's dependencies `[pdfFileName, currentPage, currentSentenceIndex]`. */
  datatype SaveDeps = SaveDeps(fileName: string, page: int, cursor: int)

  /** The status line. */
  datatype Status =
    | Initializing | ChangingPage | EndOfDocument | GeneratingVoice | Reading | WaitForInteraction
    | ConnectionError | SystemVoice | Stopped | PageReady(pageNum: int) | Resumed(page: int)

  /** Where the reader is: the page's sentences (`textItems`), the cursor, the page, the document. */
  datatype Doc = Doc(
    items: seq<string>,
    itemsGen: nat,        // how many lists `setTextItems` has stored
    cursor: int,          // currentSentenceIndex and playbackIndexRef, kept equal (App.jsx:429-431)
    page: int,            // currentPage
    numPages: int,
    fileName: string)     // pdfFileName

  /** The controls: `isPlaying`, the mode (`isLocalhost`: server voice, else system speech), voice, speed, status. */
  datatype Controls = Controls(playing: bool, server: bool, voice: string, speed: int, status: Status)

  /** The audio element: paused or playing, its source, and the run whose `onended` is installed. */
  datatype Audio = Audio(paused: bool, clip: Option<Clip>, owner: nat)

  /** `audioCache`, the requests in flight and the pending 2 s retry timers, by run. */
  datatype Net = Net(cache: map<int, Clip>, fetches: seq<Fetch>, timers: seq<nat>)

  /** The effects' bookkeeping: the current run, what it captured, and the dependencies each effect last ran with. */
  datatype Effects = Effects(epoch: nat, run: Run, ran: Deps, savedFor: SaveDeps)

  /** The progress records in local storage and the pending 500 ms restore timers, by saved index. */
  datatype Storage = Storage(saved: map<string, Progress.Record>, restores: seq<int>)

  datatype State = State(
    doc: Doc,
    ui: Controls,
    audio: Audio,
    speech: Option<Utterance>,   // speechSynthesis.speaking and its utterance
    net: Net,
    fx: Effects,
    store: Storage)

  /** The state after mount, with the settings read from local storage. */
  function Initial(server: bool, voice: string, speed: int, saved: map<string, Progress.Record>): (s: State)
    ensures s.doc.cursor == -1 && s.doc.page == 1 && !s.ui.playing && s.net.cache == map[] && Silent(s)
  {
    State(Doc([], 0, -1, 1, 0, ""), Controls(false, server, voice, speed, Initializing), Audio(true, None, 0), None,
          Net(map[], [], []), Effects(0, Run([], 1, 0, server, voice, speed), Deps(false, 0, 1), SaveDeps("", 1, -1)),
          Storage(saved, []))
  }

  function Max(a: int, b: int): int { if a >= b then a else b }
  function Min(a: int, b: int): int { if a <= b then a else b }

  function Remove<T>(s: seq<T>, k: nat): (r: seq<T>)
    requires k < |s|
    ensures |r| == |s| - 1
  {
    s[..k] + s[k + 1..]
  }

  /** Neither the audio element nor speech synthesis is sounding (App.jsx:494). */
  predicate Silent(s: State) {
    s.audio.paused && s.speech.None?
  }

  // ----- the audio cache -----

  /** `clearCache`: forgets every clip. */
  function ClearCache(s: State): (r: State)
    ensures r.net.cache == map[] && r == s.(net := s.net.(cache := map[]))
  {
    s.(net := s.net.(cache := map[]))
  }

  /** The outcome of calling `fetchAudio`: a value at once, or a request to wait for. */
  datatype Answer = Now(url: Option<Clip>) | Pending

  /** The request `fetchAudio(index)` sends: the run's sentence in the run's voice and speed. */
  function Request(s: State, index: int, awaitedBy: Option<nat>): Fetch
    requires 0 <= index < |s.fx.run.items|
  {
    Fetch(index, Clip(s.fx.run.items[index], s.fx.run.voice, s.fx.run.speed), awaitedBy)
  }

  /**
   * `fetchAudio(index)` in the closure of the current run: `null` outside the run's list,
   * the cached clip on a hit, and otherwise a request awaited by `awaitedBy`.
   */
  function FetchAudio(s: State, index: int, awaitedBy: Option<nat>): (r: (State, Answer))
    ensures index < 0 || index >= |s.fx.run.items| ==> r == (s, Now(None))
    ensures 0 <= index < |s.fx.run.items| && index in s.net.cache ==> r == (s, Now(Some(s.net.cache[index])))
    ensures 0 <= index < |s.fx.run.items| && index !in s.net.cache ==>
              r.1 == Pending && r.0 == s.(net := s.net.(fetches := s.net.fetches + [Request(s, index, awaitedBy)]))
  {
    if index < 0 || index >= |s.fx.run.items| then (s, Now(None))
    else if index in s.net.cache then (s, Now(Some(s.net.cache[index])))
    else (s.(net := s.net.(fetches := s.net.fetches + [Request(s, index, awaitedBy)])), Pending)
  }

  /** `s` with requests that nobody awaits appended, and nothing else changed. */
  ghost predicate Prefetched(s: State, r: State) {
    r == s.(net := s.net.(fetches := r.net.fetches))
    && |s.net.fetches| <= |r.net.fetches| && r.net.fetches[..|s.net.fetches|] == s.net.fetches
    && forall k :: |s.net.fetches| <= k < |r.net.fetches| ==> r.net.fetches[k].awaitedBy.None?
  }

  /** One look-ahead slot of `prefetchBuffer`: a request for `target` unless past the end or cached. */
  function PrefetchOne(s: State, target: int): (r: State)
    ensures Prefetched(s, r)
    ensures 0 <= target < |s.fx.run.items| && target !in s.net.cache ==>
              r.net.fetches == s.net.fetches + [Request(s, target, None)]
    ensures !(0 <= target < |s.fx.run.items| && target !in s.net.cache) ==> r == s
  {
    if target < |s.fx.run.items| && target !in s.net.cache then FetchAudio(s, target, None).0 else s
  }

  /** The look-ahead loop of `prefetchBuffer` from slot `i` on (slots 1 and 2). */
  function PrefetchFrom(s: State, current: int, i: int): (r: State)
    ensures Prefetched(s, r)
    decreases 3 - i
  {
    if i > 2 then s
    else
      var s1 := PrefetchOne(s, current + i);
      var r := PrefetchFrom(s1, current, i + 1);
      assert r.net.fetches[..|s.net.fetches|] == r.net.fetches[..|s1.net.fetches|][..|s.net.fetches|];
      r
  }

  /** `prefetchBuffer(current)`: nothing in system-voice mode, else slots 1 and 2. */
  function Prefetch(s: State, current: int): (r: State)
    ensures Prefetched(s, r)
    ensures !s.fx.run.server ==> r == s
  {
    if !s.fx.run.server then s else PrefetchFrom(s, current, 1)
  }

  /**
   * The clip a finished request puts in the cache. `fetchAudio` writes every successful
   * result (App.jsx:348), even after `clearCache` has emptied the cache for a new page,
   * voice or speed; a clip is only worth keeping while it is still the audio of the
   * sentence at that index in the current voice and speed, which is what this keeps.
   */
  function CacheWrite(s: State, f: Fetch): (r: State)
    ensures r == s || r == s.(net := s.net.(cache := s.net.cache[f.index := f.clip]))
    ensures f.index in r.net.cache && r.net.cache != s.net.cache ==>
              0 <= f.index < |s.doc.items| && r.net.cache[f.index] == Clip(s.doc.items[f.index], s.ui.voice, s.ui.speed)
  {
    if 0 <= f.index < |s.doc.items| && f.clip == Clip(s.doc.items[f.index], s.ui.voice, s.ui.speed)
    then s.(net := s.net.(cache := s.net.cache[f.index := f.clip]))
    else s
  }

  /** The cache write as the code does it: whatever the request was for. */
  function CacheWriteAsWritten(s: State, f: Fetch): (r: State)
    ensures r.net.cache == s.net.cache[f.index := f.clip]
    ensures r == s.(net := s.net.(cache := r.net.cache))
  {
    s.(net := s.net.(cache := s.net.cache[f.index := f.clip]))
  }

  // ----- the playback loop -----

  /** `stopPlayback`. */
  function StopPlayback(s: State): (r: State)
    ensures !r.ui.playing && r.doc.cursor == -1 && Silent(r) && r.ui.status == Stopped
  {
    s.(ui := s.ui.(playing := false, status := Stopped), doc := s.doc.(cursor := -1),
       audio := s.audio.(paused := true), speech := None)
  }

  /** What the current run does once `fetchAudio` has answered (App.jsx:467-482). */
  function Continue(s: State, url: Option<Clip>): State {
    match url
    case Some(clip) => s.(ui := s.ui.(status := Reading), audio := Audio(false, Some(clip), s.fx.epoch))
    case None => s.(ui := s.ui.(status := ConnectionError), net := s.net.(timers := s.net.timers + [s.fx.epoch]))
  }

  /** `playLoop` of the current run (App.jsx:439-492). */
  function PlayLoop(s: State): State
    requires s.doc.cursor >= -1
  {
    var next := s.doc.cursor + 1;
    var run := s.fx.run;
    if next >= |run.items| then
      if run.page < run.numPages then
        s.(ui := s.ui.(status := ChangingPage), doc := s.doc.(page := s.doc.page + 1, cursor := -1))
      else
        var t := StopPlayback(s);
        t.(ui := t.ui.(status := EndOfDocument))
    else
      var s1 := Prefetch(s.(doc := s.doc.(cursor := next)), next);
      if run.server then
        var (s2, answer) := FetchAudio(s1.(ui := s1.ui.(status := GeneratingVoice)), next, Some(s.fx.epoch));
        match answer
        case Pending => s2
        case Now(url) => Continue(s2, url)
      else
        s1.(ui := s1.ui.(status := SystemVoice), speech := Some(Utterance(run.items[next], run.speed, s.fx.epoch)))
  }

  // ----- effects -----

  /** The progress effect (App.jsx:129-138): writes a record when its dependencies changed. */
  function SaveEffect(s: State, now: int): (r: State)
    ensures r == s.(fx := s.fx.(savedFor := r.fx.savedFor), store := s.store.(saved := r.store.saved))
  {
    var d := SaveDeps(s.doc.fileName, s.doc.page, s.doc.cursor);
    if d == s.fx.savedFor then s
    else
      match Progress.RecordOnChange(s.doc.fileName, s.doc.page, s.doc.cursor, now)
      case Some(rec) => s.(fx := s.fx.(savedFor := d), store := s.store.(saved := s.store.saved[s.doc.fileName := rec]))
      case None => s.(fx := s.fx.(savedFor := d))
  }

  /** The playback effect's dependencies as they stand. */
  function DepsOf(s: State): Deps {
    Deps(s.ui.playing, s.doc.itemsGen, s.doc.page)
  }

  /** The cleanup of the old run and the start of a new one, which captures the render's values. */
  function StartRun(s: State): (r: State)
    ensures r.fx.epoch == s.fx.epoch + 1 && r.fx.run.items == s.doc.items && r.fx.run.page == s.doc.page
    ensures r.fx.run.server == s.ui.server && r.fx.run.numPages == s.doc.numPages && r.fx.ran == DepsOf(s)
    ensures r == s.(fx := r.fx)
  {
    s.(fx := s.fx.(ran := DepsOf(s), epoch := s.fx.epoch + 1,
                   run := Run(s.doc.items, s.doc.page, s.doc.numPages, s.ui.server, s.ui.voice, s.ui.speed)))
  }

  /**
   * The playback effect (App.jsx:434-499) when its dependencies changed: the cleanup
   * clears the old run's flag, the new run captures the render's values, and it steps only
   * while playing and when nothing is sounding.
   */
  function PlaybackEffect(s: State): State
    requires s.doc.cursor >= -1
  {
    if DepsOf(s) == s.fx.ran then s
    else
      var s1 := StartRun(s);
      if s.ui.playing && Silent(s1) then PlayLoop(s1) else s1
  }

  /** React commits a render: the effects whose dependencies changed run, in source order. */
  function Commit(s: State, now: int): State
    requires s.doc.cursor >= -1
  {
    PlaybackEffect(SaveEffect(s, now))
  }

  // ----- commands -----

  /** `handlePlayPause`. */
  function PlayPause(s: State): State {
    if s.ui.playing then s.(ui := s.ui.(playing := false), audio := s.audio.(paused := true), speech := None)
    else s.(ui := s.ui.(playing := true))
  }

  /** `skipToNextSentence`: stops the sound and moves on one, unless on the last sentence. */
  function SkipNext(s: State): State {
    if s.doc.cursor < |s.doc.items| - 1
    then s.(audio := s.audio.(paused := true), speech := None, doc := s.doc.(cursor := s.doc.cursor + 1))
    else s
  }

  /** The skip-back button (App.jsx:557). */
  function SkipBack(s: State): State {
    s.(doc := s.doc.(cursor := Max(-1, s.doc.cursor - 2)))
  }

  /** Shift+← (App.jsx:178). */
  function ShiftLeft(s: State): State {
    s.(doc := s.doc.(cursor := Max(-1, s.doc.cursor - 1)))
  }

  /** Clicking sentence `i` in the list (App.jsx:759). */
  function ClickSentence(s: State, i: int): State {
    s.(doc := s.doc.(cursor := i - 1), ui := s.ui.(playing := true))
  }

  /** Page Up or the previous-page button, Page Down or the next-page button, the page box. */
  datatype PageCommand = PrevPage | NextPage | GoTo(value: int)

  function NavigatePage(s: State, cmd: PageCommand): State {
    match cmd
    case PrevPage => s.(doc := s.doc.(page := Max(1, s.doc.page - 1)))
    case NextPage => s.(doc := s.doc.(page := Min(s.doc.numPages, s.doc.page + 1)))
    case GoTo(v) => if 1 <= v <= s.doc.numPages then s.(doc := s.doc.(page := v)) else s
  }

  /** The end of `renderPage` (App.jsx:257-268): the page's sentences replace the list. */
  function ReplaceSentences(s: State, pageNum: int, fragments: seq<string>): State {
    var t := ClearCache(s.(doc := s.doc.(items := Sentences.Extract(fragments), itemsGen := s.doc.itemsGen + 1)));
    t.(ui := t.ui.(status := PageReady(pageNum)))
  }

  /** The mode button (App.jsx:606). */
  function ToggleMode(s: State): State {
    s.(ui := s.ui.(server := !s.ui.server))
  }

  /** The voice list (App.jsx:693). */
  function SelectVoice(s: State, voice: string): State {
    ClearCache(s.(ui := s.ui.(voice := voice)))
  }

  /** The speed list (App.jsx:705). */
  function SelectSpeed(s: State, speed: int): State {
    ClearCache(s.(ui := s.ui.(speed := speed)))
  }

  /** The stored progress record for `fileName`, if local storage has one. */
  function StoredRecord(s: State, fileName: string): Option<Progress.Record> {
    if fileName in s.store.saved then Some(s.store.saved[fileName]) else None
  }

  /** A document of `numPages` pages has loaded (App.jsx:288-308). */
  function OpenDocument(s: State, fileName: string, numPages: int, now: int): State {
    match Progress.RestoreDecision(StoredRecord(s, fileName), now, numPages)
    case Resume(p, index) =>
      s.(doc := s.doc.(numPages := numPages, fileName := fileName, page := p),
         store := s.store.(restores := s.store.restores + [index]), ui := s.ui.(status := Resumed(p)))
    case StartOver =>
      s.(doc := s.doc.(numPages := numPages, fileName := fileName, page := 1, cursor := -1))
  }

  /** The 500 ms restore timer `k` fires (App.jsx:297-302). */
  function RestoreTimer(s: State, k: nat): State
    requires k < |s.store.restores|
  {
    s.(store := s.store.(restores := Remove(s.store.restores, k)),
       doc := s.doc.(cursor := Progress.RestoredCursor(s.store.restores[k], s.doc.cursor)))
  }

  // ----- callbacks -----

  /** What the awaiting run does with request `k`'s answer, once the cache holds `s2`. */
  function Answered(s: State, k: nat, ok: bool, s2: State): State
    requires k < |s.net.fetches|
  {
    var f := s.net.fetches[k];
    if f.awaitedBy == Some(s.fx.epoch) then Continue(s2, if ok then Some(f.clip) else None) else s2
  }

  /**
   * Request `k` completes; `ok` is false for a network error or a non-ok response. The
   * cache takes the clip through the corrected write `CacheWrite`.
   */
  function FetchDone(s: State, k: nat, ok: bool): State
    requires k < |s.net.fetches|
  {
    var f := s.net.fetches[k];
    var s1 := s.(net := s.net.(fetches := Remove(s.net.fetches, k)));
    Answered(s, k, ok, if ok then CacheWrite(s1, f) else s1)
  }

  /** Request `k` completes, with the cache write as the code does it (App.jsx:341-352). */
  function FetchDoneAsWritten(s: State, k: nat, ok: bool): State
    requires k < |s.net.fetches|
  {
    var f := s.net.fetches[k];
    var s1 := s.(net := s.net.(fetches := Remove(s.net.fetches, k)));
    Answered(s, k, ok, if ok then CacheWriteAsWritten(s1, f) else s1)
  }

  /** The playing clip reaches its end. */
  function AudioEnded(s: State): State
    requires !s.audio.paused && s.doc.cursor >= -1
  {
    var s1 := s.(audio := s.audio.(paused := true));
    if s.audio.owner == s.fx.epoch then PlayLoop(s1) else s1
  }

  /** The browser refuses to start the clip (App.jsx:473-476). */
  function AudioBlocked(s: State): State
    requires !s.audio.paused
  {
    s.(audio := s.audio.(paused := true), ui := s.ui.(status := WaitForInteraction))
  }

  /** The utterance finishes. */
  function SpeechEnded(s: State): State
    requires s.speech.Some? && s.doc.cursor >= -1
  {
    var s1 := s.(speech := None);
    if s.speech.value.owner == s.fx.epoch then PlayLoop(s1) else s1
  }

  /** The 2 s retry timer `k` fires (App.jsx:479-481). */
  function RetryFires(s: State, k: nat): State
    requires k < |s.net.timers| && s.doc.cursor >= -1
  {
    var s1 := s.(net := s.net.(timers := Remove(s.net.timers, k)));
    if s.net.timers[k] == s.fx.epoch then PlayLoop(s1) else s1
  }

  // ----- events -----

  datatype Event =
    | Render(now: int)
    | PlayPauseClicked | StopClicked | NextClicked | BackClicked | ShiftLeftPressed
    | SentenceClicked(i: int)
    | PageAsked(cmd: PageCommand)
    | PageRendered(pageNum: int, fragments: seq<string>)
    | ModeToggled | VoiceChosen(voice: string) | SpeedChosen(speed: int)
    | DocumentOpened(fileName: string, numPages: int, now: int)
    | RestoreDue(k: nat)
    | FetchFinished(k: nat, ok: bool) | AudioFinished | AudioRefused | SpeechFinished | RetryDue(k: nat)

  /** When an event can happen at all. */
  predicate Enabled(s: State, e: Event) {
    match e
    case SentenceClicked(i) => 0 <= i < |s.doc.items|
    case RestoreDue(k) => k < |s.store.restores|
    case FetchFinished(k, _) => k < |s.net.fetches|
    case AudioFinished => !s.audio.paused
    case AudioRefused => !s.audio.paused
    case SpeechFinished => s.speech.Some?
    case RetryDue(k) => k < |s.net.timers|
    case _ => true
  }

  function Next(s: State, e: Event): State
    requires Enabled(s, e) && s.doc.cursor >= -1
  {
    match e
    case Render(now) => Commit(s, now)
    case PlayPauseClicked => PlayPause(s)
    case StopClicked => StopPlayback(s)
    case NextClicked => SkipNext(s)
    case BackClicked => SkipBack(s)
    case ShiftLeftPressed => ShiftLeft(s)
    case SentenceClicked(i) => ClickSentence(s, i)
    case PageAsked(cmd) => NavigatePage(s, cmd)
    case PageRendered(n, fragments) => ReplaceSentences(s, n, fragments)
    case ModeToggled => ToggleMode(s)
    case VoiceChosen(v) => SelectVoice(s, v)
    case SpeedChosen(x) => SelectSpeed(s, x)
    case DocumentOpened(f, n, now) => OpenDocument(s, f, n, now)
    case RestoreDue(k) => RestoreTimer(s, k)
    case FetchFinished(k, ok) => FetchDone(s, k, ok)
    case AudioFinished => AudioEnded(s)
    case AudioRefused => AudioBlocked(s)
    case SpeechFinished => SpeechEnded(s)
    case RetryDue(k) => RetryFires(s, k)
  }

  /** The session as the code is written: a completion stores whatever clip it brought. */
  function NextAsWritten(s: State, e: Event): State
    requires Enabled(s, e) && s.doc.cursor >= -1
  {
    match e
    case FetchFinished(k, ok) => FetchDoneAsWritten(s, k, ok)
    case _ => Next(s, e)
  }

  // ----- the session invariant -----

  /** How many of `timers` belong to run `e`. */
  function Owned(timers: seq<nat>, e: nat): nat {
    if timers == [] then 0 else (if timers[0] == e then 1 else 0) + Owned(timers[1..], e)
  }

  /** How many of `fs` run `e` awaits. */
  function Awaiting(fs: seq<Fetch>, e: nat): nat {
    if fs == [] then 0 else (if fs[0].awaitedBy == Some(e) then 1 else 0) + Awaiting(fs[1..], e)
  }

  /**
   * What keeps playback going: a sounding clip or utterance, and every retry timer and
   * awaited request of the current run.
   */
  function Busy(s: State): nat {
    (if s.audio.paused then 0 else 1) + (if s.speech.Some? then 1 else 0)
    + Owned(s.net.timers, s.fx.epoch) + Awaiting(s.net.fetches, s.fx.epoch)
  }

  /** No callback belongs to a run that has not started yet. */
  ghost predicate OwnersStarted(s: State) {
    (forall k :: 0 <= k < |s.net.timers| ==> s.net.timers[k] <= s.fx.epoch)
    && (forall k :: 0 <= k < |s.net.fetches| ==>
          s.net.fetches[k].awaitedBy.Some? ==> s.net.fetches[k].awaitedBy.value <= s.fx.epoch)
  }

  /** Every cached clip is the audio of the sentence at its index, in the current voice and speed. */
  ghost predicate CacheFaithful(s: State) {
    forall i :: i in s.net.cache ==>
      0 <= i < |s.doc.items| && s.net.cache[i] == Clip(s.doc.items[i], s.ui.voice, s.ui.speed)
  }

  /**
   * The concurrency invariant: the cursor is never below -1, and at most one thing keeps
   * playback going: one sound, or one pending step of the current run.
   */
  ghost predicate Sound(s: State) {
    s.doc.cursor >= -1 && OwnersStarted(s) && Busy(s) <= 1
  }

  /** The session invariant of the corrected program: sound, with a faithful cache. */
  ghost predicate Inv(s: State) {
    Sound(s) && CacheFaithful(s)
  }

  /** `r` is sound, and its cache is faithful when that of `s` was. */
  ghost predicate Keeps(s: State, r: State) {
    Sound(r) && (CacheFaithful(s) ==> CacheFaithful(r))
  }

  lemma {:induction false} OwnedAppend(t: seq<nat>, x: nat, e: nat)
    ensures Owned(t + [x], e) == Owned(t, e) + (if x == e then 1 else 0)
  {
    if t != [] {
      assert (t + [x])[1..] == t[1..] + [x];
      OwnedAppend(t[1..], x, e);
    }
  }

  lemma {:induction false} OwnedRemove(t: seq<nat>, k: nat, e: nat)
    requires k < |t|
    ensures Owned(Remove(t, k), e) + (if t[k] == e then 1 else 0) == Owned(t, e)
  {
    if k > 0 {
      assert Remove(t, k)[1..] == Remove(t[1..], k - 1);
      OwnedRemove(t[1..], k - 1, e);
    } else {
      assert Remove(t, k) == t[1..];
    }
  }

  lemma {:induction false} OwnedNone(t: seq<nat>, e: nat)
    requires forall k :: 0 <= k < |t| ==> t[k] < e
    ensures Owned(t, e) == 0
  {
    if t != [] {
      OwnedNone(t[1..], e);
    }
  }

  lemma {:induction false} AwaitingAppend(fs: seq<Fetch>, extra: seq<Fetch>, e: nat)
    ensures Awaiting(fs + extra, e) == Awaiting(fs, e) + Awaiting(extra, e)
  {
    if fs != [] {
      assert (fs + extra)[1..] == fs[1..] + extra;
      AwaitingAppend(fs[1..], extra, e);
    } else {
      assert fs + extra == extra;
    }
  }

  lemma {:induction false} AwaitingNobody(fs: seq<Fetch>, e: nat)
    requires forall k :: 0 <= k < |fs| ==> fs[k].awaitedBy.Some? ==> fs[k].awaitedBy.value < e
    ensures Awaiting(fs, e) == 0
  {
    if fs != [] {
      AwaitingNobody(fs[1..], e);
    }
  }

  lemma {:induction false} AwaitingRemove(fs: seq<Fetch>, k: nat, e: nat)
    requires k < |fs|
    ensures Awaiting(Remove(fs, k), e) + (if fs[k].awaitedBy == Some(e) then 1 else 0) == Awaiting(fs, e)
  {
    if k > 0 {
      assert Remove(fs, k)[1..] == Remove(fs[1..], k - 1);
      AwaitingRemove(fs[1..], k - 1, e);
    } else {
      assert Remove(fs, k) == fs[1..];
    }
  }

  /** Requests nobody awaits leave the count of awaited ones alone. */
  lemma PrefetchedBusy(s: State, r: State)
    requires Prefetched(s, r)
    ensures Busy(r) == Busy(s)
    ensures OwnersStarted(s) ==> OwnersStarted(r)
  {
    var extra := r.net.fetches[|s.net.fetches|..];
    assert r.net.fetches == s.net.fetches + extra;
    assert r.audio == s.audio && r.speech == s.speech && r.net.timers == s.net.timers && r.fx == s.fx;
    AwaitingNobody(extra, s.fx.epoch);
    AwaitingAppend(s.net.fetches, extra, s.fx.epoch);
  }

  lemma OwnersAfterRemove(s: State, k: nat, j: nat)
    requires OwnersStarted(s)
    ensures k < |s.net.timers| ==> OwnersStarted(s.(net := s.net.(timers := Remove(s.net.timers, k))))
    ensures j < |s.net.fetches| ==> OwnersStarted(s.(net := s.net.(fetches := Remove(s.net.fetches, j))))
  {
    if k < |s.net.timers| {
      var t := Remove(s.net.timers, k);
      forall i | 0 <= i < |t| ensures t[i] <= s.fx.epoch {
        if i < k { assert t[i] == s.net.timers[i]; } else { assert t[i] == s.net.timers[i + 1]; }
      }
    }
    if j < |s.net.fetches| {
      var fs := Remove(s.net.fetches, j);
      forall i | 0 <= i < |fs| && fs[i].awaitedBy.Some? ensures fs[i].awaitedBy.value <= s.fx.epoch {
        if i < j { assert fs[i] == s.net.fetches[i]; } else { assert fs[i] == s.net.fetches[i + 1]; }
      }
    }
  }

  /** Going on after an answer adds at most one sound or one retry of the current run. */
  lemma ContinueKeeps(s: State, url: Option<Clip>)
    requires OwnersStarted(s)
    ensures var r := Continue(s, url);
      r.doc == s.doc && r.net.cache == s.net.cache && r.ui.voice == s.ui.voice && r.ui.speed == s.ui.speed
      && OwnersStarted(r) && Busy(r) <= Busy(s) + 1
  {
    if url.None? {
      OwnedAppend(s.net.timers, s.fx.epoch, s.fx.epoch);
    }
  }

  /** What every branch of the loop step keeps. */
  ghost predicate StepKept(s: State, r: State) {
    r.doc.cursor >= -1 && OwnersStarted(r) && Busy(r) <= Busy(s) + 1 && (CacheFaithful(s) ==> CacheFaithful(r))
  }

  /** The loop's own request: either an answer at once, or one more awaited request. */
  lemma AskKeeps(g: State, next: int)
    requires OwnersStarted(g) && 0 <= next < |g.fx.run.items|
    ensures var (r, a) := FetchAudio(g, next, Some(g.fx.epoch));
      (a.Now? ==> r == g)
      && (a == Pending ==>
            r == g.(net := r.net) && r.net.cache == g.net.cache && r.net.timers == g.net.timers
            && OwnersStarted(r) && Busy(r) == Busy(g) + 1)
  {
    if next !in g.net.cache {
      var f := Request(g, next, Some(g.fx.epoch));
      AwaitingAppend(g.net.fetches, [f], g.fx.epoch);
      assert Awaiting([f], g.fx.epoch) == 1 by { assert [f][1..] == []; }
    }
  }

  lemma LoopFetchKeeps(s: State, next: int)
    requires s.doc.cursor >= -1 && OwnersStarted(s) && s.fx.run.server
    requires next == s.doc.cursor + 1 && next < |s.fx.run.items|
    ensures var p := Prefetch(s.(doc := s.doc.(cursor := next)), next);
      var g := p.(ui := p.ui.(status := GeneratingVoice));
      var (r, a) := FetchAudio(g, next, Some(s.fx.epoch));
      StepKept(s, r) && (a.Now? ==> StepKept(s, Continue(r, a.url)))
  {
    var s0 := s.(doc := s.doc.(cursor := next));
    var s1 := Prefetch(s0, next);
    PrefetchedBusy(s0, s1);
    var g := s1.(ui := s1.ui.(status := GeneratingVoice));
    assert Busy(g) == Busy(s) && OwnersStarted(g) && (CacheFaithful(s) ==> CacheFaithful(g));
    AskKeeps(g, next);
    var (r, a) := FetchAudio(g, next, Some(s.fx.epoch));
    if a.Now? {
      ContinueKeeps(r, a.url);
    }
  }

  lemma LoopSpeakKeeps(s: State, next: int)
    requires s.doc.cursor >= -1 && OwnersStarted(s) && !s.fx.run.server
    requires next == s.doc.cursor + 1 && next < |s.fx.run.items|
    ensures var p := Prefetch(s.(doc := s.doc.(cursor := next)), next);
      StepKept(s, p.(ui := p.ui.(status := SystemVoice), speech := Some(Utterance(s.fx.run.items[next], s.fx.run.speed, s.fx.epoch))))
  {
    assert Prefetch(s.(doc := s.doc.(cursor := next)), next) == s.(doc := s.doc.(cursor := next));
  }

  /** One step of the loop adds at most one sound or one pending step. */
  lemma PlayLoopKeeps(s: State)
    requires s.doc.cursor >= -1 && OwnersStarted(s)
    ensures StepKept(s, PlayLoop(s))
  {
    var next := s.doc.cursor + 1;
    if next < |s.fx.run.items| {
      if s.fx.run.server {
        LoopFetchKeeps(s, next);
      } else {
        LoopSpeakKeeps(s, next);
      }
    }
  }

  /** A new run starts with nothing of its own pending. */
  lemma NewRunKeeps(s: State)
    requires Sound(s)
    ensures var r := StartRun(s);
      Keeps(s, r) && (Silent(r) ==> Busy(r) == 0)
  {
    OwnedNone(s.net.timers, s.fx.epoch + 1);
    AwaitingNobody(s.net.fetches, s.fx.epoch + 1);
  }

  /** The effects leave the invariant in place. */
  lemma CommitKeeps(s: State, now: int)
    requires Sound(s)
    ensures Keeps(s, Commit(s, now))
  {
    var s0 := SaveEffect(s, now);
    assert Keeps(s, s0);
    if DepsOf(s0) != s0.fx.ran {
      NewRunKeeps(s0);
      var s1 := StartRun(s0);
      if s0.ui.playing && Silent(s1) {
        PlayLoopKeeps(s1);
      }
    }
  }

  /** A completion that leaves the cache as `s2` is sound whatever it stored. */
  lemma AnsweredKeeps(s: State, k: nat, ok: bool, s2: State)
    requires Sound(s) && k < |s.net.fetches|
    requires s2 == s.(net := s.net.(fetches := Remove(s.net.fetches, k), cache := s2.net.cache))
    ensures Sound(Answered(s, k, ok, s2))
    ensures Answered(s, k, ok, s2).net.cache == s2.net.cache
    ensures Answered(s, k, ok, s2).doc == s.doc && Answered(s, k, ok, s2).ui.voice == s.ui.voice
    ensures Answered(s, k, ok, s2).ui.speed == s.ui.speed
  {
    var f := s.net.fetches[k];
    OwnersAfterRemove(s, |s.net.timers|, k);
    AwaitingRemove(s.net.fetches, k, s.fx.epoch);
    assert Busy(s2) + (if f.awaitedBy == Some(s.fx.epoch) then 1 else 0) == Busy(s) && OwnersStarted(s2);
    if f.awaitedBy == Some(s.fx.epoch) {
      ContinueKeeps(s2, if ok then Some(f.clip) else None);
    }
  }

  /** With the corrected write, a completion keeps the whole session invariant. */
  lemma FetchDoneKeeps(s: State, k: nat, ok: bool)
    requires Inv(s) && k < |s.net.fetches|
    ensures Inv(FetchDone(s, k, ok))
  {
    var s1 := s.(net := s.net.(fetches := Remove(s.net.fetches, k)));
    var s2 := if ok then CacheWrite(s1, s.net.fetches[k]) else s1;
    AnsweredKeeps(s, k, ok, s2);
    assert CacheFaithful(s2);
  }

  /** As written, a completion still keeps the concurrency invariant. */
  lemma FetchDoneAsWrittenKeeps(s: State, k: nat, ok: bool)
    requires Sound(s) && k < |s.net.fetches|
    ensures Sound(FetchDoneAsWritten(s, k, ok))
  {
    var s1 := s.(net := s.net.(fetches := Remove(s.net.fetches, k)));
    AnsweredKeeps(s, k, ok, if ok then CacheWriteAsWritten(s1, s.net.fetches[k]) else s1);
  }

  lemma RetryFiresKeeps(s: State, k: nat)
    requires Sound(s) && k < |s.net.timers|
    ensures Keeps(s, RetryFires(s, k))
  {
    var s1 := s.(net := s.net.(timers := Remove(s.net.timers, k)));
    OwnersAfterRemove(s, k, |s.net.fetches|);
    OwnedRemove(s.net.timers, k, s.fx.epoch);
    if s.net.timers[k] == s.fx.epoch {
      PlayLoopKeeps(s1);
    }
  }

  lemma SoundEndedKeeps(s: State)
    requires Sound(s)
    ensures !s.audio.paused ==> Keeps(s, AudioEnded(s)) && Keeps(s, AudioBlocked(s))
    ensures s.speech.Some? ==> Keeps(s, SpeechEnded(s))
  {
    if !s.audio.paused {
      PlayLoopKeeps(s.(audio := s.audio.(paused := true)));
    }
    if s.speech.Some? {
      PlayLoopKeeps(s.(speech := None));
    }
  }

  /** The session starts with nothing pending. */
  lemma InitialInv(server: bool, voice: string, speed: int, saved: map<string, Progress.Record>)
    ensures Inv(Initial(server, voice, speed, saved))
  {
  }

  lemma PlayPauseKeeps(s: State)
    requires Sound(s)
    ensures Keeps(s, PlayPause(s)) && Keeps(s, StopPlayback(s))
  {
  }

  lemma SkipKeeps(s: State)
    requires Sound(s)
    ensures Keeps(s, SkipNext(s)) && Keeps(s, SkipBack(s)) && Keeps(s, ShiftLeft(s))
  {
  }

  lemma ClickKeeps(s: State, i: int)
    requires Sound(s) && 0 <= i
    ensures Keeps(s, ClickSentence(s, i))
  {
  }

  lemma NavigateKeeps(s: State, cmd: PageCommand)
    requires Sound(s)
    ensures Keeps(s, NavigatePage(s, cmd)) && Keeps(s, ToggleMode(s))
  {
  }

  lemma ReplaceKeeps(s: State, pageNum: int, fragments: seq<string>)
    requires Sound(s)
    ensures Keeps(s, ReplaceSentences(s, pageNum, fragments))
  {
  }

  lemma SettingsKeep(s: State, voice: string, speed: int)
    requires Sound(s)
    ensures Keeps(s, SelectVoice(s, voice)) && Keeps(s, SelectSpeed(s, speed))
  {
  }

  lemma OpenKeeps(s: State, fileName: string, numPages: int, now: int)
    requires Sound(s)
    ensures Keeps(s, OpenDocument(s, fileName, numPages, now))
  {
  }

  lemma RestoreKeeps(s: State, k: nat)
    requires Sound(s) && k < |s.store.restores|
    ensures Keeps(s, RestoreTimer(s, k))
  {
  }

  /** The user's commands and the page and document events. */
  lemma CommandKeeps(s: State, e: Event)
    requires Sound(s) && Enabled(s, e)
    requires !(e.Render? || e.FetchFinished? || e.RetryDue? || e.AudioFinished? || e.AudioRefused? || e.SpeechFinished?)
    ensures Keeps(s, Next(s, e))
  {
    match e
    case PlayPauseClicked => PlayPauseKeeps(s);
    case StopClicked => PlayPauseKeeps(s);
    case NextClicked => SkipKeeps(s);
    case BackClicked => SkipKeeps(s);
    case ShiftLeftPressed => SkipKeeps(s);
    case SentenceClicked(i) => ClickKeeps(s, i);
    case PageAsked(cmd) => NavigateKeeps(s, cmd);
    case ModeToggled => NavigateKeeps(s, PrevPage);
    case PageRendered(n, fragments) => ReplaceKeeps(s, n, fragments);
    case VoiceChosen(v) => SettingsKeep(s, v, s.ui.speed);
    case SpeedChosen(x) => SettingsKeep(s, s.ui.voice, x);
    case DocumentOpened(f, n, now) => OpenKeeps(s, f, n, now);
    case RestoreDue(k) => RestoreKeeps(s, k);
  }

  /**
   * Every event keeps the invariant: at no time do the clip and the utterance sound
   * together, or does the current run have two steps pending at once.
   */
  lemma NextKeepsInv(s: State, e: Event)
    requires Inv(s) && Enabled(s, e)
    ensures Inv(Next(s, e))
  {
    match e
    case Render(now) => CommitKeeps(s, now);
    case FetchFinished(k, ok) => FetchDoneKeeps(s, k, ok);
    case RetryDue(k) => RetryFiresKeeps(s, k);
    case AudioFinished => SoundEndedKeeps(s);
    case AudioRefused => SoundEndedKeeps(s);
    case SpeechFinished => SoundEndedKeeps(s);
    case _ => CommandKeeps(s, e);
  }

  /**
   * The code as written keeps the concurrency invariant too: however stale the clips it
   * caches, the clip and the utterance never sound together, and the current run never
   * has two steps pending at once.
   */
  lemma NextAsWrittenKeepsSound(s: State, e: Event)
    requires Sound(s) && Enabled(s, e)
    ensures Sound(NextAsWritten(s, e))
  {
    match e
    case Render(now) => CommitKeeps(s, now);
    case FetchFinished(k, ok) => FetchDoneAsWrittenKeeps(s, k, ok);
    case RetryDue(k) => RetryFiresKeeps(s, k);
    case AudioFinished => SoundEndedKeeps(s);
    case AudioRefused => SoundEndedKeeps(s);
    case SpeechFinished => SoundEndedKeeps(s);
    case _ => CommandKeeps(s, e);
  }
}
