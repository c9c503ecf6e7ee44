/**
 * The reading session of `src/App.jsx` as an object: its fields are the component's state,
 * refs and the two sound devices, grouped as `Playback.State` groups them; its methods
 * update them step by step as the handlers do. Each method is proved to leave the session
 * in the state the transition function of `Playback` describes, and each event keeps the
 * session invariant `Playback.Inv`.
 */
module Reader {
  import opened Common
  import opened Playback
  import Sentences
  import Progress

  class Session {
    var doc: Doc
    var ui: Controls
    var audio: Audio
    var speech: Option<Utterance>
    var net: Net
    var fx: Effects
    var store: Storage

    /** The session's fields as a value. */
    function Snapshot(): State
      reads this
    {
      State(doc, ui, audio, speech, net, fx, store)
    }

    ghost predicate Valid()
      reads this
    {
      Inv(Snapshot())
    }

    /** The session after mount, with the settings read from local storage. */
    constructor (server: bool, voice: string, speed: int, saved: map<string, Progress.Record>)
      ensures Snapshot() == Initial(server, voice, speed, saved) && Valid()
    {
      doc, ui, audio, speech := Doc([], 0, -1, 1, 0, ""), Controls(false, server, voice, speed, Initializing), Audio(true, None, 0), None;
      net, fx := Net(map[], [], []), Effects(0, Run([], 1, 0, server, voice, speed), Deps(false, 0, 1), SaveDeps("", 1, -1));
      store := Storage(saved, []);
      InitialInv(server, voice, speed, saved);
    }

    /** `calculateReadingProgress`: the share of the page's sentences read, in percent. */
    function ReadingProgress(): (r: int)
      reads this
      ensures doc.items == [] ==> r == 0
      ensures -1 <= doc.cursor < |doc.items| ==> 0 <= r <= 100
      ensures |doc.items| > 0 && doc.cursor == |doc.items| - 1 ==> r == 100
    {
      if -1 <= doc.cursor < |doc.items| then
        Progress.PercentInRange(doc.cursor, |doc.items|);
        Progress.Percent(doc.cursor, |doc.items|)
      else
        Progress.Percent(doc.cursor, |doc.items|)
    }

    // ----- the audio cache -----

    /** `clearCache`. */
    method ClearCache()
      modifies this
      ensures Snapshot() == Playback.ClearCache(old(Snapshot()))
    {
      net := net.(cache := map[]);
    }

    /** `fetchAudio(index)`: an answer at once, or a request the caller awaits. */
    method FetchAudio(index: int, awaitedBy: Option<nat>) returns (answer: Answer)
      modifies this
      ensures (Snapshot(), answer) == Playback.FetchAudio(old(Snapshot()), index, awaitedBy)
    {
      if index < 0 || index >= |fx.run.items| {
        return Now(None);
      }
      if index in net.cache {
        return Now(Some(net.cache[index]));
      }
      net := net.(fetches := net.fetches + [Fetch(index, Clip(fx.run.items[index], fx.run.voice, fx.run.speed), awaitedBy)]);
      return Pending;
    }

    /** `prefetchBuffer(current)`: asks for the next two sentences that are not cached. */
    method Prefetch(current: int)
      modifies this
      ensures Snapshot() == Playback.Prefetch(old(Snapshot()), current)
    {
      if !fx.run.server {
        return;
      }
      for i := 1 to 3
        invariant PrefetchFrom(Snapshot(), current, i) == PrefetchFrom(old(Snapshot()), current, 1)
      {
        var target := current + i;
        if target < |fx.run.items| && target !in net.cache {
          var _ := FetchAudio(target, None);
        }
      }
    }

    /** A finished request's clip goes into the cache while it is still the audio of that sentence. */
    method CacheWrite(f: Fetch)
      modifies this
      ensures Snapshot() == Playback.CacheWrite(old(Snapshot()), f)
    {
      if 0 <= f.index < |doc.items| && f.clip == Clip(doc.items[f.index], ui.voice, ui.speed) {
        net := net.(cache := net.cache[f.index := f.clip]);
      }
    }

    // ----- the playback loop -----

    /** `stopPlayback`. */
    method StopPlayback()
      modifies this
      ensures Snapshot() == Playback.StopPlayback(old(Snapshot()))
    {
      ui, doc, audio, speech := ui.(playing := false, status := Stopped), doc.(cursor := -1), audio.(paused := true), None;
    }

    /** Plays the clip, or sets the retry timer when there is none. */
    method Continue(url: Option<Clip>)
      modifies this
      ensures Snapshot() == Playback.Continue(old(Snapshot()), url)
    {
      match url
      case Some(clip) =>
        ui, audio := ui.(status := Reading), Audio(false, Some(clip), fx.epoch);
      case None =>
        ui, net := ui.(status := ConnectionError), net.(timers := net.timers + [fx.epoch]);
    }

    /** `playLoop` of the current run. */
    method PlayLoop()
      requires doc.cursor >= -1
      modifies this
      ensures Snapshot() == Playback.PlayLoop(old(Snapshot()))
    {
      var next := doc.cursor + 1;
      if next >= |fx.run.items| {
        if fx.run.page < fx.run.numPages {
          ui, doc := ui.(status := ChangingPage), doc.(page := doc.page + 1, cursor := -1);
        } else {
          StopPlayback();
          ui := ui.(status := EndOfDocument);
        }
        return;
      }
      doc := doc.(cursor := next);
      Prefetch(next);
      if fx.run.server {
        ui := ui.(status := GeneratingVoice);
        var answer := FetchAudio(next, Some(fx.epoch));
        if answer.Now? {
          Continue(answer.url);
        }
      } else {
        ui, speech := ui.(status := SystemVoice), Some(Utterance(fx.run.items[next], fx.run.speed, fx.epoch));
      }
    }

    // ----- effects -----

    /** The progress effect. */
    method SaveEffect(now: int)
      modifies this
      ensures Snapshot() == Playback.SaveEffect(old(Snapshot()), now)
    {
      var d := SaveDeps(doc.fileName, doc.page, doc.cursor);
      if d != fx.savedFor {
        fx := fx.(savedFor := d);
        var rec := Progress.RecordOnChange(doc.fileName, doc.page, doc.cursor, now);
        if rec.Some? {
          store := store.(saved := store.saved[doc.fileName := rec.value]);
        }
      }
    }

    /** The playback effect: cleanup, a new run, and its first step while silent. */
    method PlaybackEffect()
      requires doc.cursor >= -1
      modifies this
      ensures Snapshot() == Playback.PlaybackEffect(old(Snapshot()))
    {
      var d := Deps(ui.playing, doc.itemsGen, doc.page);
      if d == fx.ran {
        return;
      }
      fx := fx.(ran := d, epoch := fx.epoch + 1, run := Run(doc.items, doc.page, doc.numPages, ui.server, ui.voice, ui.speed));
      if ui.playing && audio.paused && speech.None? {
        PlayLoop();
      }
    }

    /** A render commits: the effects whose dependencies changed run. */
    method Commit(now: int)
      requires Valid()
      modifies this
      ensures Snapshot() == Playback.Commit(old(Snapshot()), now) && Valid()
    {
      ghost var s0 := Snapshot();
      SaveEffect(now);
      PlaybackEffect();
      CommitKeeps(s0, now);
    }

    // ----- commands -----

    /** `handlePlayPause`. */
    method PlayPause()
      requires Valid()
      modifies this
      ensures Snapshot() == Playback.PlayPause(old(Snapshot())) && Valid()
    {
      ghost var s0 := Snapshot();
      if ui.playing {
        ui, audio, speech := ui.(playing := false), audio.(paused := true), None;
      } else {
        ui := ui.(playing := true);
      }
      PlayPauseKeeps(s0);
    }

    /** The stop button. */
    method Stop()
      requires Valid()
      modifies this
      ensures Snapshot() == Playback.StopPlayback(old(Snapshot())) && Valid()
    {
      ghost var s0 := Snapshot();
      StopPlayback();
      PlayPauseKeeps(s0);
    }

    /** `skipToNextSentence`. */
    method SkipNext()
      requires Valid()
      modifies this
      ensures Snapshot() == Playback.SkipNext(old(Snapshot())) && Valid()
    {
      ghost var s0 := Snapshot();
      if doc.cursor < |doc.items| - 1 {
        audio, speech, doc := audio.(paused := true), None, doc.(cursor := doc.cursor + 1);
      }
      SkipKeeps(s0);
    }

    /** The skip-back button. */
    method SkipBack()
      requires Valid()
      modifies this
      ensures Snapshot() == Playback.SkipBack(old(Snapshot())) && Valid()
    {
      ghost var s0 := Snapshot();
      doc := doc.(cursor := Max(-1, doc.cursor - 2));
      SkipKeeps(s0);
    }

    /** Shift+←. */
    method ShiftLeft()
      requires Valid()
      modifies this
      ensures Snapshot() == Playback.ShiftLeft(old(Snapshot())) && Valid()
    {
      ghost var s0 := Snapshot();
      doc := doc.(cursor := Max(-1, doc.cursor - 1));
      SkipKeeps(s0);
    }

    /** A click on sentence `i` of the list. */
    method ClickSentence(i: int)
      requires Valid() && 0 <= i < |doc.items|
      modifies this
      ensures Snapshot() == Playback.ClickSentence(old(Snapshot()), i) && Valid()
    {
      ghost var s0 := Snapshot();
      doc, ui := doc.(cursor := i - 1), ui.(playing := true);
      ClickKeeps(s0, i);
    }

    /** The page keys, the page buttons and the page box. */
    method NavigatePage(cmd: PageCommand)
      requires Valid()
      modifies this
      ensures Snapshot() == Playback.NavigatePage(old(Snapshot()), cmd) && Valid()
    {
      ghost var s0 := Snapshot();
      match cmd
      case PrevPage => doc := doc.(page := Max(1, doc.page - 1));
      case NextPage => doc := doc.(page := Min(doc.numPages, doc.page + 1));
      case GoTo(v) =>
        if 1 <= v <= doc.numPages {
          doc := doc.(page := v);
        }
      NavigateKeeps(s0, cmd);
    }

    /** The end of `renderPage`: the page's sentences replace the list. */
    method ReplaceSentences(pageNum: int, fragments: seq<string>)
      requires Valid()
      modifies this
      ensures Snapshot() == Playback.ReplaceSentences(old(Snapshot()), pageNum, fragments) && Valid()
    {
      ghost var s0 := Snapshot();
      doc := doc.(items := Sentences.Extract(fragments), itemsGen := doc.itemsGen + 1);
      ClearCache();
      ui := ui.(status := PageReady(pageNum));
      ReplaceKeeps(s0, pageNum, fragments);
    }

    /** The mode button. */
    method ToggleMode()
      requires Valid()
      modifies this
      ensures Snapshot() == Playback.ToggleMode(old(Snapshot())) && Valid()
    {
      ghost var s0 := Snapshot();
      ui := ui.(server := !ui.server);
      NavigateKeeps(s0, PrevPage);
    }

    /** The voice list. */
    method SelectVoice(v: string)
      requires Valid()
      modifies this
      ensures Snapshot() == Playback.SelectVoice(old(Snapshot()), v) && Valid()
    {
      ghost var s0 := Snapshot();
      ui := ui.(voice := v);
      ClearCache();
      SettingsKeep(s0, v, s0.ui.speed);
    }

    /** The speed list. */
    method SelectSpeed(x: int)
      requires Valid()
      modifies this
      ensures Snapshot() == Playback.SelectSpeed(old(Snapshot()), x) && Valid()
    {
      ghost var s0 := Snapshot();
      ui := ui.(speed := x);
      ClearCache();
      SettingsKeep(s0, s0.ui.voice, x);
    }

    /** A document has loaded: resume from its fresh saved position, or start over. */
    method OpenDocument(name: string, pages: int, now: int)
      requires Valid()
      modifies this
      ensures Snapshot() == Playback.OpenDocument(old(Snapshot()), name, pages, now) && Valid()
    {
      ghost var s0 := Snapshot();
      var stored := if name in store.saved then Some(store.saved[name]) else None;
      match Progress.RestoreDecision(stored, now, pages)
      case Resume(p, index) =>
        doc, store, ui := doc.(numPages := pages, fileName := name, page := p),
                          store.(restores := store.restores + [index]), ui.(status := Resumed(p));
      case StartOver =>
        doc := doc.(numPages := pages, fileName := name, page := 1, cursor := -1);
      OpenKeeps(s0, name, pages, now);
    }

    /** Restore timer `k` fires. */
    method RestoreTimer(k: nat)
      requires Valid() && k < |store.restores|
      modifies this
      ensures Snapshot() == Playback.RestoreTimer(old(Snapshot()), k) && Valid()
    {
      ghost var s0 := Snapshot();
      var index := store.restores[k];
      store := store.(restores := Remove(store.restores, k));
      if index >= 0 {
        doc := doc.(cursor := index);
      }
      RestoreKeeps(s0, k);
    }

    // ----- callbacks -----

    /** Request `k` completes, successfully or not. */
    method FetchDone(k: nat, ok: bool)
      requires Valid() && k < |net.fetches|
      modifies this
      ensures Snapshot() == Playback.FetchDone(old(Snapshot()), k, ok) && Valid()
    {
      ghost var s0 := Snapshot();
      var f := net.fetches[k];
      net := net.(fetches := Remove(net.fetches, k));
      if ok {
        CacheWrite(f);
      }
      if f.awaitedBy == Some(fx.epoch) {
        Continue(if ok then Some(f.clip) else None);
      }
      FetchDoneKeeps(s0, k, ok);
    }

    /** The clip ends. */
    method AudioEnded()
      requires Valid() && !audio.paused
      modifies this
      ensures Snapshot() == Playback.AudioEnded(old(Snapshot())) && Valid()
    {
      ghost var s0 := Snapshot();
      var owner := audio.owner;
      audio := audio.(paused := true);
      if owner == fx.epoch {
        PlayLoop();
      }
      SoundEndedKeeps(s0);
    }

    /** The browser refuses to play the clip. */
    method AudioBlocked()
      requires Valid() && !audio.paused
      modifies this
      ensures Snapshot() == Playback.AudioBlocked(old(Snapshot())) && Valid()
    {
      ghost var s0 := Snapshot();
      audio, ui := audio.(paused := true), ui.(status := WaitForInteraction);
      SoundEndedKeeps(s0);
    }

    /** The utterance ends. */
    method SpeechEnded()
      requires Valid() && speech.Some?
      modifies this
      ensures Snapshot() == Playback.SpeechEnded(old(Snapshot())) && Valid()
    {
      ghost var s0 := Snapshot();
      var owner := speech.value.owner;
      speech := None;
      if owner == fx.epoch {
        PlayLoop();
      }
      SoundEndedKeeps(s0);
    }

    /** Retry timer `k` fires. */
    method RetryFires(k: nat)
      requires Valid() && k < |net.timers|
      modifies this
      ensures Snapshot() == Playback.RetryFires(old(Snapshot()), k) && Valid()
    {
      ghost var s0 := Snapshot();
      var owner := net.timers[k];
      net := net.(timers := Remove(net.timers, k));
      if owner == fx.epoch {
        PlayLoop();
      }
      RetryFiresKeeps(s0, k);
    }
  }
}
