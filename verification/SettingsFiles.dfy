/**
 The settings file and the update-channel file: two files saved one after the
 other with a rollback, and reconciled from the settings at the next start.
 Each write is all-or-nothing, can be refused, and the process can die before
 or after it.
 */
module SettingsFiles {
  import opened Wrappers

  datatype Channel = Stable | Beta

  // `rest` is everything else the settings hold.
  datatype Settings = Settings(channel: Channel, lastCheck: Option<nat>, rest: string)

  datatype ChannelState = ChannelState(channel: Channel, lastCheck: Option<nat>)

  const DEFAULT_CHANNEL := ChannelState(Stable, None)

  // A typed patch: an invalid one is refused as a whole.
  datatype Patch = Patch(channel: Option<Channel>, lastCheck: Option<nat>, rest: string -> Option<string>)

  datatype Write = Done | Refused | DiesBefore | DiesAfter

  datatype Outcome = Saved | Unchanged | RollbackFailed | Died

  function Applied(settings: Settings, patch: Patch): Option<Settings> {
    match patch.rest(settings.rest)
    case None => None
    case Some(rest) =>
      Some(Settings(
        if patch.channel.Some? then patch.channel.value else settings.channel,
        if patch.lastCheck.Some? then patch.lastCheck else settings.lastCheck,
        rest))
  }

  // What the patch names is new, everything else is as it was.
  predicate Patched(before: Settings, patch: Patch, after: Settings) {
    && after.channel == (match patch.channel case Some(channel) => channel case None => before.channel)
    && after.lastCheck == (if patch.lastCheck.None? then before.lastCheck else patch.lastCheck)
    && Some(after.rest) == patch.rest(before.rest)
  }

  // The channel file repeats what the settings say.
  predicate Agree(settings: Settings, state: ChannelState) {
    state.channel == settings.channel && state.lastCheck == settings.lastCheck
  }

  function StateOf(settings: Settings): ChannelState { ChannelState(settings.channel, settings.lastCheck) }

  // ---------------------------------------------------------------------
  // The two files and the memory as one state
  // ---------------------------------------------------------------------

  datatype Snapshot = Snapshot(
    settingsFile: Option<Settings>,
    channelFile: Option<ChannelState>,
    memory: Option<(Settings, ChannelState)>
  )

  // What a write leaves in its file.
  function Written<T>(file: Option<T>, next: T, write: Write): Option<T> {
    if write.Done? || write.DiesAfter? then Some(next) else file
  }

  predicate Dies(write: Write) { write.DiesBefore? || write.DiesAfter? }

  function AfterSave(w: Snapshot, next: Settings, nextChannel: ChannelState, first: Write, second: Write,
                     rollback: Write): Snapshot
    requires w.memory.Some?
  {
    var a := w.(channelFile := Written(w.channelFile, nextChannel, first));
    if Dies(first) then a.(memory := None)
    else if first.Refused? then a
    else
      var b := a.(settingsFile := Written(a.settingsFile, next, second));
      if Dies(second) then b.(memory := None)
      else if second.Done? then b.(memory := Some((next, nextChannel)))
      else
        var c := b.(channelFile := Written(b.channelFile, w.memory.value.1, rollback));
        if Dies(rollback) then c.(memory := None) else c
  }

  function Booted(defaults: Settings, w: Snapshot, defaultSettings: Write, defaultChannel: Write, reconcile: Write,
                  later: bool): Snapshot {
    var a := if w.settingsFile.None? then w.(settingsFile := Written(None, defaults, defaultSettings)) else w;
    if w.settingsFile.None? && !defaultSettings.Done? then a
    else
      var b := if w.channelFile.None? then a.(channelFile := Written(None, DEFAULT_CHANNEL, defaultChannel)) else a;
      if w.channelFile.None? && !defaultChannel.Done? then b
      else
        var loaded, agrees := b.settingsFile.value, Agree(b.settingsFile.value, b.channelFile.value);
        var c := if agrees then b else b.(channelFile := Written(b.channelFile, StateOf(loaded), reconcile));
        if (!agrees && !reconcile.Done?) || !later then c else c.(memory := Some((loaded, StateOf(loaded))))
  }

  datatype Event =
    | Update(patch: Patch, first: Write, second: Write, rollback: Write)
    | Check(checkedAt: nat, first: Write, second: Write, rollback: Write)
    | Exit
    | Boot(defaultSettings: Write, defaultChannel: Write, reconcile: Write, later: bool)

  // The settings an event wants to save.
  function Offered(w: Snapshot, event: Event): Option<Settings> {
    if w.memory.None? then None
    else
      match event
      case Update(patch, _, _, _) => Applied(w.memory.value.0, patch)
      case Check(checkedAt, _, _, _) => Some(w.memory.value.0.(lastCheck := Some(checkedAt)))
      case _ => None
  }

  // Saves need a running process and starts a stopped one; others do nothing.
  function Next(defaults: Settings, w: Snapshot, event: Event): Snapshot {
    match event
    case Exit => w.(memory := None)
    case Boot(a, b, c, later) => if w.memory.Some? then w else Booted(defaults, w, a, b, c, later)
    case Update(_, first, second, rollback) =>
      var next := Offered(w, event);
      if next.None? then w else AfterSave(w, next.value, StateOf(next.value), first, second, rollback)
    case Check(_, first, second, rollback) =>
      var next := Offered(w, event);
      if next.None? then w
      else AfterSave(w, next.value, w.memory.value.1.(lastCheck := next.value.lastCheck), first, second, rollback)
  }

  class App {
    const defaults: Settings
    // The files.
    var settingsFile: Option<Settings>
    var channelFile: Option<ChannelState>
    // The copies in memory, while the process runs.
    var running: bool
    var settings: Settings
    var channel: ChannelState
    // Every settings value a save of the file was attempted with.
    ghost var offered: set<Settings>

    function Current(): Snapshot
      reads this
    {
      Snapshot(settingsFile, channelFile, if running then Some((settings, channel)) else None)
    }

    // In every reachable state: a running process holds exactly the settings
    // on disk and an agreeing channel state, and the settings file is whole.
    ghost predicate Valid()
      reads this
    {
      && (running ==> settingsFile == Some(settings) && channelFile.Some? && Agree(settings, channel))
      && (settingsFile.Some? ==> settingsFile.value in offered)
      && StateOf(defaults) == DEFAULT_CHANNEL
    }

    constructor (defaults: Settings)
      requires StateOf(defaults) == DEFAULT_CHANNEL
      ensures Valid() && !running && settingsFile.None? && channelFile.None?
    {
      this.defaults := defaults;
      settingsFile, channelFile, running := None, None, false;
      settings, channel, offered := defaults, DEFAULT_CHANNEL, {};
    }

    method SaveSettings(next: Settings, write: Write) returns (ok: bool, died: bool)
      modifies this`settingsFile, this`offered
      ensures ok == write.Done? && died == (write.DiesBefore? || write.DiesAfter?)
      ensures settingsFile == if write.Done? || write.DiesAfter? then Some(next) else old(settingsFile)
      ensures offered == old(offered) + {next}
    {
      if write.Done? || write.DiesAfter? {
        settingsFile := Some(next);
      }
      offered := offered + {next};
      return write.Done?, write.DiesBefore? || write.DiesAfter?;
    }

    method SaveChannel(next: ChannelState, write: Write) returns (ok: bool, died: bool)
      modifies this`channelFile
      ensures ok == write.Done? && died == (write.DiesBefore? || write.DiesAfter?)
      ensures channelFile == if write.Done? || write.DiesAfter? then Some(next) else old(channelFile)
    {
      if write.Done? || write.DiesAfter? {
        channelFile := Some(next);
      }
      return write.Done?, write.DiesBefore? || write.DiesAfter?;
    }

    // The shared body of the two saves: channel file, then settings file, with
    // the channel file rolled back when the settings are refused.
    method SaveBoth(next: Settings, nextChannel: ChannelState, first: Write, second: Write, rollback: Write)
      returns (outcome: Outcome)
      requires Valid() && running && Agree(next, nextChannel)
      modifies this
      ensures Valid() && running == !outcome.Died?
      ensures outcome.Saved? ==> settings == next && channel == nextChannel &&
                                 settingsFile == Some(settings) && channelFile == Some(channel)
      ensures outcome.Unchanged? ==>
                && settings == old(settings) && channel == old(channel)
                && settingsFile == old(settingsFile)
                && (channelFile == old(channelFile) || channelFile == Some(old(channel)))
      ensures outcome.RollbackFailed? ==>
                && settings == old(settings) && channel == old(channel)
                && settingsFile == old(settingsFile) && channelFile == Some(nextChannel)
      ensures outcome.Died? ==>
                settingsFile == old(settingsFile) || (settingsFile == Some(next) && channelFile == Some(nextChannel))
      ensures outcome.Saved? <==> first.Done? && second.Done?
      ensures outcome.RollbackFailed? <==> first.Done? && second.Refused? && rollback.Refused?
      ensures Current() == AfterSave(old(Current()), next, nextChannel, first, second, rollback)
    {
      var ok, died := SaveChannel(nextChannel, first);
      if died {
        running := false;
        return Died;
      }
      if !ok {
        return Unchanged;
      }
      ok, died := SaveSettings(next, second);
      if died {
        running := false;
        return Died;
      }
      if !ok {
        ok, died := SaveChannel(channel, rollback);
        if died {
          running := false;
          return Died;
        }
        return if ok then Unchanged else RollbackFailed;
      }
      settings := next;
      channel := nextChannel;
      return Saved;
    }

    method UpdateSettings(patch: Patch, first: Write, second: Write, rollback: Write) returns (r: Option<Outcome>)
      requires Valid() && running
      modifies this
      ensures Valid()
      ensures r.None? <==> patch.rest(old(settings).rest).None?
      ensures r.None? ==> unchanged(this)
      ensures r == Some(Saved) ==>
                && Patched(old(settings), patch, settings)
                && settingsFile == Some(settings) && channelFile == Some(channel) && channel == StateOf(settings)
      ensures r == Some(Unchanged) || r == Some(RollbackFailed) ==>
                running && settings == old(settings) && channel == old(channel) && settingsFile == old(settingsFile)
      ensures r == Some(Unchanged) && old(channelFile) == Some(old(channel)) ==> channelFile == old(channelFile)
      ensures r == Some(Died) ==>
                !running && (settingsFile == old(settingsFile) || settingsFile == Applied(old(settings), patch))
      ensures Current() == Next(defaults, old(Current()), Update(patch, first, second, rollback))
    {
      var next := Applied(settings, patch);
      if next.None? {
        return None;
      }
      var nextChannel := channel.(channel := next.value.channel, lastCheck := next.value.lastCheck);
      var outcome := SaveBoth(next.value, nextChannel, first, second, rollback);
      return Some(outcome);
    }

    method PersistSuccessfulCheck(checkedAt: nat, first: Write, second: Write, rollback: Write)
      returns (outcome: Outcome)
      requires Valid() && running
      modifies this
      ensures Valid()
      ensures outcome.Saved? ==>
                && settings == old(settings).(lastCheck := Some(checkedAt))
                && settingsFile == Some(settings) && channelFile == Some(channel) && channel == StateOf(settings)
      ensures outcome.Unchanged? || outcome.RollbackFailed? ==>
                running && settings == old(settings) && channel == old(channel) && settingsFile == old(settingsFile)
      ensures outcome.Unchanged? && old(channelFile) == Some(old(channel)) ==> channelFile == old(channelFile)
      ensures outcome.Died? ==>
                && !running
                && (settingsFile == old(settingsFile)
                    || settingsFile == Some(old(settings).(lastCheck := Some(checkedAt))))
      ensures Current() == Next(defaults, old(Current()), Check(checkedAt, first, second, rollback))
    {
      var next := settings.(lastCheck := Some(checkedAt));
      var nextChannel := channel.(lastCheck := Some(checkedAt));
      outcome := SaveBoth(next, nextChannel, first, second, rollback);
    }

    // The process ends for any other reason.
    method Stop()
      requires Valid()
      modifies this`running
      ensures Valid() && !running
    {
      running := false;
    }

    // The configuration part of a start: missing files get their defaults, then
    // the channel file is reconciled from the settings. `later` is whether the
    // rest of the start succeeds.
    method BootstrapHome(defaultSettings: Write, defaultChannel: Write, reconcile: Write, later: bool)
      returns (ok: bool)
      requires Valid() && !running
      modifies this
      ensures Valid() && running == ok
      ensures old(settingsFile).Some? ==> settingsFile == old(settingsFile)
      ensures ok ==>
                && settingsFile == Some(if old(settingsFile).Some? then old(settingsFile).value else defaults)
                && settings == settingsFile.value
                && channelFile == Some(channel) && channel == StateOf(settings)
      ensures defaultSettings.Done? && defaultChannel.Done? && reconcile.Done? && later ==> ok
      ensures Current() == Booted(defaults, old(Current()), defaultSettings, defaultChannel, reconcile, later)
    {
      if settingsFile.None? {
        var written, _ := SaveSettings(defaults, defaultSettings);
        if !written {
          return false;
        }
      }
      if channelFile.None? {
        var written, _ := SaveChannel(DEFAULT_CHANNEL, defaultChannel);
        if !written {
          return false;
        }
      }
      var loaded, state := settingsFile.value, channelFile.value;
      if state.channel != loaded.channel || state.lastCheck != loaded.lastCheck {
        state := state.(channel := loaded.channel, lastCheck := loaded.lastCheck);
        var written, _ := SaveChannel(state, reconcile);
        if !written {
          return false;
        }
      }
      if !later {
        return false;
      }
      settings, channel, running := loaded, state, true;
      return true;
    }
  }

  // ---------------------------------------------------------------------
  // Over all runs
  // ---------------------------------------------------------------------

  function Run(defaults: Settings, w: Snapshot, events: seq<Event>): Snapshot {
    if events == [] then w else Next(defaults, Run(defaults, w, events[..|events| - 1]), events[|events| - 1])
  }

  // A running process holds exactly what the settings file says.
  predicate Coherent(w: Snapshot) {
    w.memory.Some? ==>
      w.settingsFile == Some(w.memory.value.0) && w.channelFile.Some? && Agree(w.memory.value.0, w.memory.value.1)
  }

  // An update that reaches both files saves the patched settings and the state
  // they say; one that is refused as a whole changes nothing.
  lemma {:induction false} UpdatesArePatches(defaults: Settings, w: Snapshot, patch: Patch, rollback: Write,
                                             next: Settings)
    requires Coherent(w) && w.memory.Some?
    ensures var after := Next(defaults, w, Update(patch, Done, Done, rollback));
            && (patch.rest(w.memory.value.0.rest).None? ==> after == w)
            && (after.settingsFile == Some(next) && patch.rest(w.memory.value.0.rest).Some? <==>
                  Patched(w.memory.value.0, patch, next))
            && (Patched(w.memory.value.0, patch, next) ==>
                  after.channelFile == Some(ChannelState(next.channel, next.lastCheck))
                  && after.memory == Some((next, ChannelState(next.channel, next.lastCheck))))
  {
  }

  lemma {:induction false} RunsAreCoherent(defaults: Settings, w: Snapshot, events: seq<Event>)
    requires Coherent(w)
    ensures Coherent(Run(defaults, w, events))
  {
    if events != [] {
      RunsAreCoherent(defaults, w, events[..|events| - 1]);
    }
  }

  // The settings file never mixes values: after any run it holds what it held
  // at first, the defaults, or a whole value some event wanted to save.
  lemma {:induction false} SettingsAreWhole(defaults: Settings, w: Snapshot, events: seq<Event>)
    ensures var file := Run(defaults, w, events).settingsFile;
            || file == w.settingsFile
            || file == Some(defaults)
            || exists i :: 0 <= i < |events| && file.Some? && Offered(Run(defaults, w, events[..i]), events[i]) == file
  {
    hide Next, Offered;
    if events != [] {
      var n := |events| - 1;
      var front := events[..n];
      SettingsAreWhole(defaults, w, front);
      StepIsWhole(defaults, Run(defaults, w, front), events[n]);
      assert forall i | 0 <= i < n :: front[i] == events[i] && front[..i] == events[..i];
    }
  }

  lemma StepIsWhole(defaults: Settings, w: Snapshot, event: Event)
    ensures var file := Next(defaults, w, event).settingsFile;
            file == w.settingsFile || file == Some(defaults) || (file.Some? && file == Offered(w, event))
  {
  }

  // Whatever happened before, a start that succeeds leaves both files and both
  // copies in agreement with the settings file it found.
  lemma {:induction false} SuccessfulStartReconciles(defaults: Settings, w: Snapshot, events: seq<Event>, boot: Event)
    requires Coherent(w) && StateOf(defaults) == DEFAULT_CHANNEL && boot.Boot?
    requires var before := Run(defaults, w, events);
             before.memory.None? && Next(defaults, before, boot).memory.Some?
    ensures var before := Run(defaults, w, events);
            var after := Next(defaults, before, boot);
            var settings := if before.settingsFile.Some? then before.settingsFile.value else defaults;
            after == Snapshot(Some(settings), Some(StateOf(settings)), Some((settings, StateOf(settings))))
  {
    hide Run;
  }

  // Exits and starts never touch an existing settings file.
  lemma {:induction false} StartsKeepSettings(defaults: Settings, w: Snapshot, events: seq<Event>)
    requires w.settingsFile.Some? && forall i | 0 <= i < |events| :: events[i].Exit? || events[i].Boot?
    ensures Run(defaults, w, events).settingsFile == w.settingsFile
  {
    if events != [] {
      StartsKeepSettings(defaults, w, events[..|events| - 1]);
    }
  }

  // The new settings replace the old ones exactly when both writes reach their
  // files.
  predicate Reaches(w: Snapshot, save: Event) {
    && (save.Update? || save.Check?)
    && Offered(w, save).Some?
    && save.first.Done? && (save.second.Done? || save.second.DiesAfter?)
  }

  // A save interrupted anywhere, then any exits and starts, failing or not, and
  // then a start that succeeds: both files and both copies hold the whole new
  // settings or the whole old ones.
  lemma {:induction false} InterruptedSaveIsWhole(defaults: Settings, w: Snapshot, save: Event, events: seq<Event>,
                                                  boot: Event)
    requires Coherent(w) && w.memory.Some? && StateOf(defaults) == DEFAULT_CHANNEL
    requires (save.Update? || save.Check?) && boot.Boot?
    requires forall i | 0 <= i < |events| :: events[i].Exit? || events[i].Boot?
    requires var before := Run(defaults, Next(defaults, w, save), events);
             before.memory.None? && Next(defaults, before, boot).memory.Some?
    ensures var before := Run(defaults, Next(defaults, w, save), events);
            var settings := if Reaches(w, save) then Offered(w, save).value else w.memory.value.0;
            Next(defaults, before, boot) ==
            Snapshot(Some(settings), Some(StateOf(settings)), Some((settings, StateOf(settings))))
  {
    hide Run;
    var saved := Next(defaults, w, save);
    StartsKeepSettings(defaults, saved, events);
    SuccessfulStartReconciles(defaults, saved, events, boot);
  }

  // Without crashes and failed rollbacks the files never disagree at all.
  predicate Smooth(event: Event) {
    match event
    case Exit => true
    case Boot(_, _, _, _) => true
    case _ => !Dies(event.first) && !Dies(event.second) && (event.second.Refused? ==> event.rollback.Done?)
  }

  predicate InStep(w: Snapshot) {
    Coherent(w) && (w.memory.Some? ==> w.channelFile == Some(w.memory.value.1))
  }

  lemma {:induction false} SmoothRunsStayInStep(defaults: Settings, w: Snapshot, events: seq<Event>)
    requires InStep(w) && StateOf(defaults) == DEFAULT_CHANNEL && forall i | 0 <= i < |events| :: Smooth(events[i])
    ensures InStep(Run(defaults, w, events))
  {
    if events != [] {
      SmoothRunsStayInStep(defaults, w, events[..|events| - 1]);
    }
  }
}
