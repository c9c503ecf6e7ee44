/**
 * What the reading session of `src/App.jsx` does, stated on the transition functions of
 * `Playback`: how the loop advances, what a failure, a stale callback or a command does,
 * and the places where the code does something other than the obvious.
 */
module PlaybackProperties {
  import opened Common
  import opened Playback
  import Sentences
  import Progress

  // ----- one step of the loop -----

  /** Within the page, the loop moves to the next sentence and keeps the page. */
  lemma LoopAdvances(s: State)
    requires s.doc.cursor >= -1 && s.doc.cursor + 1 < |s.fx.run.items|
    ensures var r := PlayLoop(s);
      r.doc == s.doc.(cursor := s.doc.cursor + 1) && r.ui.playing == s.ui.playing && r.fx == s.fx
  {
  }

  /** Past the last sentence of a page that is not the last, the loop turns the page. */
  lemma LoopTurnsPage(s: State)
    requires s.doc.cursor >= -1 && s.doc.cursor + 1 >= |s.fx.run.items| && s.fx.run.page < s.fx.run.numPages
    ensures PlayLoop(s) == s.(ui := s.ui.(status := ChangingPage), doc := s.doc.(page := s.doc.page + 1, cursor := -1))
  {
  }

  /** Past the last sentence of the last page, playback stops. */
  lemma LoopEndsDocument(s: State)
    requires s.doc.cursor >= -1 && s.doc.cursor + 1 >= |s.fx.run.items| && s.fx.run.page >= s.fx.run.numPages
    ensures var r := PlayLoop(s);
      !r.ui.playing && r.doc.cursor == -1 && r.ui.status == EndOfDocument && Silent(r)
  {
  }

  /** The request the look-ahead makes for `target`, if any. */
  function Wanted(s: State, target: int): seq<Fetch> {
    if 0 <= target < |s.fx.run.items| && target !in s.net.cache
    then [Fetch(target, Clip(s.fx.run.items[target], s.fx.run.voice, s.fx.run.speed), None)]
    else []
  }

  /**
   * The look-ahead asks for the two sentences after `current` that exist and are not
   * cached, in that order, awaited by nobody; in system-voice mode it asks for nothing.
   */
  lemma PrefetchRequests(s: State, current: int)
    ensures s.fx.run.server ==>
      Prefetch(s, current) == s.(net := s.net.(fetches := s.net.fetches + Wanted(s, current + 1) + Wanted(s, current + 2)))
    ensures !s.fx.run.server ==> Prefetch(s, current) == s
  {
    if s.fx.run.server {
      var s1 := PrefetchOne(s, current + 1);
      assert s1 == s.(net := s.net.(fetches := s.net.fetches + Wanted(s, current + 1)));
      var s2 := PrefetchOne(s1, current + 2);
      assert Wanted(s1, current + 2) == Wanted(s, current + 2);
      assert s2 == s1.(net := s1.net.(fetches := s1.net.fetches + Wanted(s, current + 2)));
      assert PrefetchFrom(s2, current, 3) == s2;
    }
  }

  // ----- failures and stale callbacks -----

  /**
   * In server mode, a step within the page asks only for sentences after the old cursor,
   * and the request it awaits itself, if any, is the last one, for the new cursor.
   */
  lemma LoopRequests(s: State)
    requires s.doc.cursor >= -1 && s.doc.cursor + 1 < |s.fx.run.items| && s.fx.run.server
    ensures var r := PlayLoop(s);
      r.doc.cursor == s.doc.cursor + 1 && |s.net.fetches| <= |r.net.fetches| && r.net.fetches[..|s.net.fetches|] == s.net.fetches
      && (forall j :: |s.net.fetches| <= j < |r.net.fetches| ==> r.net.fetches[j].index > s.doc.cursor)
      && (r.ui.status == GeneratingVoice ==>
            r.net.fetches[|r.net.fetches| - 1] == Request(s, s.doc.cursor + 1, Some(s.fx.epoch)))
  {
    var next := s.doc.cursor + 1;
    var s0 := s.(doc := s.doc.(cursor := next));
    var p := Prefetch(s0, next);
    PrefetchRequests(s0, next);
    assert forall j :: |s.net.fetches| <= j < |p.net.fetches| ==> p.net.fetches[j].index > s.doc.cursor;
    var g := p.(ui := p.ui.(status := GeneratingVoice));
    var (r, a) := FetchAudio(g, next, Some(s.fx.epoch));
    assert PlayLoop(s) == (if a == Pending then r else Continue(r, a.url));
    if a == Pending {
      AppendNewer(s.net.fetches, p.net.fetches, Request(s, next, Some(s.fx.epoch)), s.doc.cursor);
    }
  }

  /** Appending one more request past `c` keeps a list whose new requests are all past `c`. */
  lemma AppendNewer(before: seq<Fetch>, mid: seq<Fetch>, f: Fetch, c: int)
    requires |before| <= |mid| && mid[..|before|] == before && f.index > c
    requires forall j :: |before| <= j < |mid| ==> mid[j].index > c
    ensures var after := mid + [f];
      after[..|before|] == before && after[|after| - 1] == f
      && forall j :: |before| <= j < |after| ==> after[j].index > c
  {
    var after := mid + [f];
    assert after[..|before|] == mid[..|before|];
    forall j | |before| <= j < |after| ensures after[j].index > c {
      if j < |mid| { assert after[j] == mid[j]; }
    }
  }

  /** A failed request the current run awaits leaves the cursor and sets a retry timer. */
  lemma FailedFetchWaits(s: State, k: nat)
    requires k < |s.net.fetches| && s.net.fetches[k].awaitedBy == Some(s.fx.epoch)
    ensures FetchDone(s, k, false) ==
      s.(net := s.net.(fetches := Remove(s.net.fetches, k), timers := s.net.timers + [s.fx.epoch]),
         ui := s.ui.(status := ConnectionError))
  {
  }

  /** The retry of the current run is one more step of the loop. */
  lemma RetryIsStep(s: State, k: nat)
    requires s.doc.cursor >= -1 && k < |s.net.timers| && s.net.timers[k] == s.fx.epoch
    ensures RetryFires(s, k) == PlayLoop(s.(net := s.net.(timers := Remove(s.net.timers, k))))
  {
  }

  /**
   * A failed request for the sentence under the cursor leaves the cursor there and sets a
   * retry timer; when it fires, the loop steps on from the cursor, so the failed sentence
   * is never asked for again: the retry asks for the sentence after it.
   */
  lemma FailedFetchIsSkipped(s: State, k: nat)
    requires s.doc.cursor >= -1 && s.fx.run.server && k < |s.net.fetches|
    requires s.net.fetches[k].awaitedBy == Some(s.fx.epoch) && s.net.fetches[k].index == s.doc.cursor
    requires s.doc.cursor + 1 < |s.fx.run.items|
    ensures var s1 := FetchDone(s, k, false);
      s1.doc.cursor == s.doc.cursor && s1.ui.status == ConnectionError && s1.net.timers == s.net.timers + [s.fx.epoch]
      && var r := RetryFires(s1, |s.net.timers|);
      r.doc.cursor == s.doc.cursor + 1
      && (forall j :: |s1.net.fetches| <= j < |r.net.fetches| ==> r.net.fetches[j].index != s.doc.cursor)
      && (r.ui.status == GeneratingVoice ==>
            r.net.fetches[|r.net.fetches| - 1] == Request(s, s.doc.cursor + 1, Some(s.fx.epoch)))
  {
    FailedFetchWaits(s, k);
    var s1 := FetchDone(s, k, false);
    RetryIsStep(s1, |s.net.timers|);
    var t := s1.(net := s1.net.(timers := Remove(s1.net.timers, |s.net.timers|)));
    assert t.net.timers == s.net.timers;
    LoopRequests(t);
  }

  /** A request completing after its run was replaced only updates the cache. */
  lemma StaleFetchIgnored(s: State, k: nat, ok: bool)
    requires k < |s.net.fetches| && s.net.fetches[k].awaitedBy != Some(s.fx.epoch)
    ensures var r := FetchDone(s, k, ok);
      r == s.(net := s.net.(fetches := Remove(s.net.fetches, k), cache := r.net.cache))
  {
  }

  /** The end of a clip or an utterance started by an earlier run does not step the loop. */
  lemma StaleSoundIgnored(s: State)
    requires s.doc.cursor >= -1
    ensures !s.audio.paused && s.audio.owner != s.fx.epoch ==> AudioEnded(s) == s.(audio := s.audio.(paused := true))
    ensures s.speech.Some? && s.speech.value.owner != s.fx.epoch ==> SpeechEnded(s) == s.(speech := None)
  {
  }

  /** A retry timer set by an earlier run does nothing when it fires. */
  lemma StaleRetryIgnored(s: State, k: nat)
    requires s.doc.cursor >= -1 && k < |s.net.timers| && s.net.timers[k] != s.fx.epoch
    ensures RetryFires(s, k) == s.(net := s.net.(timers := Remove(s.net.timers, k)))
  {
  }

  // ----- the start guard -----

  /**
   * A new run of the effect takes its first step at once when playing and nothing is
   * sounding; otherwise it only replaces the old run, and cursor, sound and requests stay.
   */
  lemma NewRunStepsOnlyWhenSilent(s: State)
    requires s.doc.cursor >= -1 && DepsOf(s) != s.fx.ran
    ensures s.ui.playing && Silent(s) ==> PlaybackEffect(s) == PlayLoop(StartRun(s))
    ensures !(s.ui.playing && Silent(s)) ==>
      var r := PlaybackEffect(s);
      r.doc == s.doc && r.audio == s.audio && r.speech == s.speech && r.net == s.net
      && r.fx.epoch == s.fx.epoch + 1
  {
  }

  /**
   * A new run that starts while the clip is still playing (a page turned by hand, say)
   * leaves nothing to step the loop: when the clip ends, its handler belongs to the
   * old run, and playback stands still while `isPlaying` stays true.
   */
  lemma RerunWhileSoundingStalls(s: State)
    requires Inv(s) && s.ui.playing && DepsOf(s) != s.fx.ran
    requires !s.audio.paused && s.audio.owner <= s.fx.epoch
    ensures var r := AudioEnded(PlaybackEffect(s));
      r.ui.playing && Busy(r) == 0 && r.doc.cursor == s.doc.cursor
  {
    var s1 := PlaybackEffect(s);
    NewRunKeeps(s);
    assert s1.speech.None? by {
      assert Busy(s) <= 1;
    }
  }

  /** Skipping ahead while playing stops the sound, which then never ends: playback stands still. */
  lemma SkipNextWhilePlayingStalls(s: State)
    requires Inv(s) && s.ui.playing && !s.audio.paused && s.doc.cursor < |s.doc.items| - 1
    ensures var r := SkipNext(s);
      r.ui.playing && Busy(r) == 0 && r.doc.cursor == s.doc.cursor + 1
  {
  }

  // ----- commands -----

  /**
   * The skip-back button moves the cursor two back and Shift+← one back; since the loop
   * plays the sentence after the cursor, the button goes to the previous sentence while
   * the key repeats the current one.
   */
  lemma SkipBackVersusShiftLeft(s: State)
    requires 1 <= s.doc.cursor < |s.fx.run.items|
    ensures SkipBack(s).doc.cursor == s.doc.cursor - 2 && ShiftLeft(s).doc.cursor == s.doc.cursor - 1
    ensures PlayLoop(SkipBack(s)).doc.cursor == s.doc.cursor - 1
    ensures PlayLoop(ShiftLeft(s)).doc.cursor == s.doc.cursor
  {
  }

  /** Neither goes below -1, the position before the first sentence. */
  lemma BackClamps(s: State)
    requires s.doc.cursor <= 0
    ensures SkipBack(s).doc.cursor == -1 && ShiftLeft(s).doc.cursor == -1
  {
  }

  /** Moving between pages by hand keeps the cursor and stays within the document. */
  lemma PageNavigationKeepsCursor(s: State, cmd: PageCommand)
    requires 1 <= s.doc.page <= s.doc.numPages
    ensures var r := NavigatePage(s, cmd);
      r == s.(doc := s.doc.(page := r.doc.page)) && 1 <= r.doc.page <= s.doc.numPages
    ensures cmd.GoTo? && !(1 <= cmd.value <= s.doc.numPages) ==> NavigatePage(s, cmd) == s
  {
  }

  /** Skip-next stops the sound and moves on one, but not past the last sentence. */
  lemma SkipNextBounded(s: State)
    ensures s.doc.cursor < |s.doc.items| - 1 ==>
      SkipNext(s) == s.(doc := s.doc.(cursor := s.doc.cursor + 1), audio := s.audio.(paused := true), speech := None)
    ensures s.doc.cursor >= |s.doc.items| - 1 ==> SkipNext(s) == s
  {
  }

  /** A render that changes none of the playback effect's dependencies only saves progress. */
  lemma CommitWithoutRerun(s: State, now: int)
    requires s.doc.cursor >= -1 && DepsOf(s) == s.fx.ran
    ensures Commit(s, now) == SaveEffect(s, now)
  {
    var s0 := SaveEffect(s, now);
    assert DepsOf(s0) == DepsOf(s) && s0.fx.ran == s.fx.ran;
  }

  /** A render that changes them starts a new run, which steps only while playing and silent. */
  lemma CommitWithRerun(s: State, now: int)
    requires s.doc.cursor >= -1 && DepsOf(s) != s.fx.ran
    ensures var s1 := StartRun(SaveEffect(s, now));
      Commit(s, now) == if s.ui.playing && Silent(s) then PlayLoop(s1) else s1
  {
    var s0 := SaveEffect(s, now);
    assert DepsOf(s0) == DepsOf(s) && s0.fx.ran == s.fx.ran && Silent(s0) == Silent(s);
  }

  /** A step within the page that finds its clip in the cache plays it at once. */
  lemma LoopHit(s: State)
    requires s.doc.cursor >= -1 && s.doc.cursor + 1 < |s.fx.run.items| && s.fx.run.server && s.doc.cursor + 1 in s.net.cache
    ensures var r := PlayLoop(s);
      r.audio == Audio(false, Some(s.net.cache[s.doc.cursor + 1]), s.fx.epoch) && r.ui.status == Reading
      && r.doc.cursor == s.doc.cursor + 1
  {
    var next := s.doc.cursor + 1;
    var p := Prefetch(s.(doc := s.doc.(cursor := next)), next);
    assert p.net.cache == s.net.cache && p.fx == s.fx;
    var g := p.(ui := p.ui.(status := GeneratingVoice));
    assert FetchAudio(g, next, Some(s.fx.epoch)) == (g, Now(Some(s.net.cache[next])));
  }

  /** In system-voice mode, a step within the page speaks the next sentence of the run. */
  lemma LoopSpeaks(s: State)
    requires s.doc.cursor >= -1 && s.doc.cursor + 1 < |s.fx.run.items| && !s.fx.run.server
    ensures PlayLoop(s) == s.(doc := s.doc.(cursor := s.doc.cursor + 1), ui := s.ui.(status := SystemVoice),
                              speech := Some(Utterance(s.fx.run.items[s.doc.cursor + 1], s.fx.run.speed, s.fx.epoch)))
  {
  }

  /**
   * Pausing keeps the cursor; playing again starts a new run, which plays the sentence
   * after the one that was interrupted, not the interrupted one.
   */
  lemma PauseThenResume(s: State, t1: int, t2: int)
    requires s.doc.cursor >= -1 && s.ui.playing && s.fx.ran == DepsOf(s)
    requires s.doc.cursor + 1 < |s.doc.items|
    ensures var paused := Commit(PlayPause(s), t1);
      !paused.ui.playing && paused.doc.cursor == s.doc.cursor && Silent(paused)
      && var r := Commit(PlayPause(paused), t2);
      r.ui.playing && r.doc.cursor == s.doc.cursor + 1 && r.fx.run.items == s.doc.items
  {
    var p := PlayPause(s);
    CommitWithRerun(p, t1);
    var q := Commit(p, t1);
    assert q == StartRun(SaveEffect(p, t1));
    assert q.doc == s.doc && Silent(q) && !q.ui.playing && !q.fx.ran.playing;
    var u := PlayPause(q);
    CommitWithRerun(u, t2);
    var u1 := StartRun(SaveEffect(u, t2));
    assert u1.doc == s.doc && u1.fx.run.items == s.doc.items && u1.ui.playing;
    LoopAdvances(u1);
  }

  /** Stopping and playing again starts the page over from its first sentence. */
  lemma StopThenPlay(s: State, t1: int, t2: int)
    requires s.doc.cursor >= -1 && s.fx.ran == DepsOf(s) && |s.doc.items| > 0
    ensures var stopped := Commit(StopPlayback(s), t1);
      stopped.doc.cursor == -1 && !stopped.ui.playing && Silent(stopped)
      && var r := Commit(PlayPause(stopped), t2);
      r.ui.playing && r.doc.cursor == 0
  {
    var p := StopPlayback(s);
    var q := Commit(p, t1);
    if DepsOf(p) == p.fx.ran {
      CommitWithoutRerun(p, t1);
    } else {
      CommitWithRerun(p, t1);
    }
    assert q.doc == p.doc && Silent(q) && !q.ui.playing && !q.fx.ran.playing;
    var u := PlayPause(q);
    CommitWithRerun(u, t2);
    var u1 := StartRun(SaveEffect(u, t2));
    assert u1.doc.cursor == -1 && u1.fx.run.items == s.doc.items && u1.ui.playing;
    LoopAdvances(u1);
  }

  /**
   * Clicking a sentence while playing starts no new run: the sound goes on, and the
   * clicked sentence is played when it ends.
   */
  lemma ClickWhilePlaying(s: State, i: int, now: int)
    requires s.doc.cursor >= -1 && s.ui.playing && s.fx.ran == DepsOf(s)
    requires !s.audio.paused && s.audio.owner == s.fx.epoch && 0 <= i < |s.fx.run.items|
    ensures var r := Commit(ClickSentence(s, i), now);
      r.fx.epoch == s.fx.epoch && r.doc.cursor == i - 1 && !r.audio.paused
      && AudioEnded(r).doc.cursor == i
  {
    var c := ClickSentence(s, i);
    CommitWithoutRerun(c, now);
    var r := Commit(c, now);
    assert r.doc == c.doc && r.fx.epoch == s.fx.epoch && r.fx.run == s.fx.run && r.audio == s.audio;
    LoopAdvances(r.(audio := r.audio.(paused := true)));
  }

  // ----- pages -----

  /**
   * When the loop turns the page, the new run starts before the new page's sentences
   * arrive: it captures the old list and plays its first sentence again.
   */
  lemma PageTurnReplaysOldFirstSentence(s: State, now: int)
    requires s.doc.cursor >= -1 && s.ui.playing && Silent(s) && s.fx.ran == DepsOf(s)
    requires s.fx.run.items == s.doc.items && |s.doc.items| > 0 && s.doc.cursor + 1 >= |s.doc.items|
    requires s.fx.run.page < s.fx.run.numPages
    ensures var r := Commit(PlayLoop(s), now);
      r.doc.page == s.doc.page + 1 && r.doc.cursor == 0 && r.fx.run.items == s.doc.items && r.fx.run.page == s.doc.page + 1
      && (!s.ui.server ==> r.speech == Some(Utterance(s.doc.items[0], s.ui.speed, r.fx.epoch)))
  {
    LoopTurnsPage(s);
    var p := PlayLoop(s);
    CommitWithRerun(p, now);
    var u1 := StartRun(SaveEffect(p, now));
    assert u1.doc.cursor == -1 && u1.fx.run.items == s.doc.items && u1.doc.page == s.doc.page + 1
      && u1.fx.run.server == s.ui.server && u1.fx.run.speed == s.ui.speed;
    LoopAdvances(u1);
    if !s.ui.server {
      LoopSpeaks(u1);
    }
  }

  /**
   * On a page without sentences, the loop turns the page, and the new run, still holding
   * the empty list, turns it again: the page moves on by two before any text arrives.
   */
  lemma EmptyPageCascades(s: State, now: int)
    requires s.doc.cursor >= -1 && s.ui.playing && Silent(s) && s.fx.ran == DepsOf(s)
    requires s.doc.items == [] && s.fx.run.items == [] && s.fx.run.page == s.doc.page && s.fx.run.numPages == s.doc.numPages
    requires s.doc.page + 1 < s.doc.numPages
    ensures Commit(PlayLoop(s), now).doc.page == s.doc.page + 2
  {
    LoopTurnsPage(s);
    var p := PlayLoop(s);
    CommitWithRerun(p, now);
    var u1 := StartRun(SaveEffect(p, now));
    assert u1.doc.cursor == -1 && u1.fx.run.items == [] && u1.fx.run.page == s.doc.page + 1
      && u1.doc.page == s.doc.page + 1 && u1.fx.run.numPages == s.doc.numPages;
    LoopTurnsPage(u1);
  }

  // ----- the cache -----

  /**
   * While the run is current, a cache hit plays the audio of the sentence the cursor
   * moves to, in the current voice and speed.
   */
  lemma CacheHitPlaysCurrentSentence(s: State)
    requires Inv(s) && s.fx.run.server && s.fx.run.items == s.doc.items
    requires s.fx.run.voice == s.ui.voice && s.fx.run.speed == s.ui.speed
    requires s.doc.cursor + 1 < |s.doc.items| && s.doc.cursor + 1 in s.net.cache
    ensures var r := PlayLoop(s);
      r.audio.clip == Some(Clip(s.doc.items[s.doc.cursor + 1], s.ui.voice, s.ui.speed))
      && !r.audio.paused && r.ui.status == Reading
  {
    LoopHit(s);
  }

  /**
   * A completion adds its clip under its index exactly when it succeeded and the clip is
   * the audio of the sentence now at that index, in the current voice and speed; otherwise
   * the cache is left as it was.
   */
  lemma FetchDoneCaches(s: State, k: nat, ok: bool)
    requires k < |s.net.fetches|
    ensures var f := s.net.fetches[k];
      var current := 0 <= f.index < |s.doc.items| && f.clip == Clip(s.doc.items[f.index], s.ui.voice, s.ui.speed);
      FetchDone(s, k, ok).net.cache == if ok && current then s.net.cache[f.index := f.clip] else s.net.cache
  {
  }

  /** As written, every successful completion adds its clip under its index, whatever it is. */
  lemma FetchDoneAsWrittenCaches(s: State, k: nat, ok: bool)
    requires k < |s.net.fetches|
    ensures var f := s.net.fetches[k];
      FetchDoneAsWritten(s, k, ok).net.cache == if ok then s.net.cache[f.index := f.clip] else s.net.cache
  {
  }

  /** As written, the write stores a clip that is not the audio of the sentence at its index. */
  lemma AsWrittenStoresForeignClip(s: State, f: Fetch)
    requires 0 <= f.index < |s.doc.items| && f.clip.text != s.doc.items[f.index]
    ensures !CacheFaithful(CacheWriteAsWritten(s, f))
    ensures CacheWrite(s, f) == s
  {
    assert CacheWriteAsWritten(s, f).net.cache[f.index] == f.clip;
  }

  /**
   * A render after the sentence list changed, while playing with nothing sounding, starts
   * a run whose first step plays the cached clip of the next sentence.
   */
  lemma RenderPlaysCached(s: State, now: int)
    requires s.doc.cursor >= -1 && s.ui.playing && s.ui.server && Silent(s) && DepsOf(s) != s.fx.ran
    requires s.doc.cursor + 1 < |s.doc.items| && s.doc.cursor + 1 in s.net.cache
    ensures var r := Commit(s, now);
      r.doc.cursor == s.doc.cursor + 1 && r.audio.clip == Some(s.net.cache[s.doc.cursor + 1]) && !r.audio.paused
      && r.doc.items == s.doc.items
  {
    CommitWithRerun(s, now);
    var u := StartRun(SaveEffect(s, now));
    assert u.net.cache == s.net.cache && u.doc == s.doc && u.fx.run.items == s.doc.items && u.fx.run.server;
    LoopHit(u);
  }

  /** The new page's sentences arrive, then a request of the old page completes. */
  lemma LateCompletion(s: State, pageNum: int, fragments: seq<string>, k: nat)
    requires k < |s.net.fetches| && s.net.fetches[k].awaitedBy != Some(s.fx.epoch)
    ensures var f := s.net.fetches[k];
      var s1 := ReplaceSentences(s, pageNum, fragments);
      var s2 := FetchDoneAsWritten(s1, k, true);
      && s2.doc == s1.doc && s2.ui.playing == s.ui.playing && s2.ui.server == s.ui.server
      && s2.audio == s.audio && s2.speech == s.speech && s2.fx == s.fx
      && s2.doc.items == Sentences.Extract(fragments) && s2.doc.itemsGen == s.doc.itemsGen + 1
      && s2.doc.cursor == s.doc.cursor && s2.net.cache == map[f.index := f.clip]
      && FetchDone(s1, k, true).net.cache ==
           if 0 <= f.index < |s1.doc.items| && f.clip == Clip(s1.doc.items[f.index], s1.ui.voice, s1.ui.speed)
           then map[f.index := f.clip] else map[]
  {
    var s1 := ReplaceSentences(s, pageNum, fragments);
    assert s1.net.fetches == s.net.fetches && s1.net.cache == map[];
    FetchDoneAsWrittenCaches(s1, k, true);
    FetchDoneCaches(s1, k, true);
  }

  /**
   * As written, a request made for the old page that completes after the new page's
   * sentences arrived stores the old page's clip under the new page's index; the render
   * that follows starts a run whose first step finds that clip in the cache and plays it
   * in place of the new sentence. With the corrected write the clip is not stored.
   */
  lemma LateClipPlaysWrongSentence(s: State, pageNum: int, fragments: seq<string>, k: nat, now: int)
    requires s.doc.cursor >= -1 && s.ui.playing && s.ui.server && Silent(s) && DepsOf(s) == s.fx.ran
    requires k < |s.net.fetches| && s.net.fetches[k].awaitedBy != Some(s.fx.epoch)
    requires var items := Sentences.Extract(fragments);
      var f := s.net.fetches[k];
      f.index == s.doc.cursor + 1 < |items| && f.clip.text != items[f.index]
    ensures var f := s.net.fetches[k];
      var s1 := Next(s, PageRendered(pageNum, fragments));
      var s2 := NextAsWritten(s1, FetchFinished(k, true));
      var s3 := NextAsWritten(s2, Render(now));
      && !CacheFaithful(s2)
      && s3.doc.cursor == f.index && s3.audio.clip == Some(f.clip) && !s3.audio.paused
      && f.clip.text != s3.doc.items[f.index]
    ensures var f := s.net.fetches[k];
      var s1 := Next(s, PageRendered(pageNum, fragments));
      f.index !in Next(s1, FetchFinished(k, true)).net.cache
  {
    var f := s.net.fetches[k];
    LateCompletion(s, pageNum, fragments, k);
    var s1 := ReplaceSentences(s, pageNum, fragments);
    var s2 := FetchDoneAsWritten(s1, k, true);
    assert s2.net.cache[f.index] == f.clip;
    assert Silent(s2) && DepsOf(s2) != s2.fx.ran;
    RenderPlaysCached(s2, now);
  }

  /** With the corrected write, every request's completion keeps the cache faithful. */
  lemma FetchDoneKeepsCacheFaithful(s: State, k: nat, ok: bool)
    requires CacheFaithful(s) && k < |s.net.fetches|
    ensures CacheFaithful(FetchDone(s, k, ok))
  {
    FetchDoneCaches(s, k, ok);
  }

  // ----- progress -----

  /**
   * A position written by the progress effect comes back when the same document is
   * opened within a week: the page at once, and the cursor when the restore timer fires.
   */
  lemma ReopenResumes(s: State, t: int, now: int, numPages: int)
    requires s.doc.fileName != "" && 0 < s.doc.page <= numPages && s.doc.cursor >= 0
    requires s.fx.savedFor != SaveDeps(s.doc.fileName, s.doc.page, s.doc.cursor)
    requires 0 <= now - t < Progress.WeekMs
    ensures var saved := SaveEffect(s, t);
      var reopened := OpenDocument(saved, s.doc.fileName, numPages, now);
      reopened.doc.page == s.doc.page && reopened.ui.status == Resumed(s.doc.page)
      && RestoreTimer(reopened, |reopened.store.restores| - 1).doc.cursor == s.doc.cursor
  {
    var saved := SaveEffect(s, t);
    assert saved.store.saved[s.doc.fileName] == Progress.Record(s.doc.page, s.doc.cursor, t);
    assert StoredRecord(saved, s.doc.fileName) == Some(Progress.Record(s.doc.page, s.doc.cursor, t));
  }

  /** A document opened without a fresh record for a page it has starts on page 1 before the first sentence. */
  lemma OpenWithoutRecordStartsOver(s: State, fileName: string, numPages: int, now: int)
    requires fileName !in s.store.saved
    ensures var r := OpenDocument(s, fileName, numPages, now);
      r.doc.page == 1 && r.doc.cursor == -1 && r.store.restores == s.store.restores
  {
  }
}
