/**
  The shutdown protocol of guest/docker-shutdown.rs over daemon.json, its backup
  and the Docker daemon.

  Every file effect and every question to the daemon may fail, and the helper may be
  killed at any of them (`Killed`, after which nothing more is done), unless the system is
  `reliable`. The daemon answers anything at all. Other programs write the contents in `script`, in that order,
  whenever the helper waits for anything; only between the comparison and the rename in
  `Exchange` is the file left alone. The log records every run and every edit, and the
  two files hold exactly what the log says.
 */
module DockerShutdown {
  import opened Outcomes
  import opened Steps
  import opened Utf8
  import opened DockerConfig
  import opened ConfigEditor
  import opened ShutdownLog
  import opened ShutdownCauses

  /** This process has a number left for a temporary. */
  ghost predicate HasRoom(temporaries: map<(nat, nat), Image>, pid: nat) {
    exists n: nat :: n < 100 && (pid, n) !in temporaries
  }

  /** Every temporary was there at first, or is from one of the processes that have run. */
  ghost predicate FromRuns(temporaries: map<(nat, nat), Image>, initial: map<(nat, nat), Image>, pids: set<nat>) {
    forall k :: k in temporaries ==> k in initial || k.0 in pids
  }

  lemma OneMoreTemporary(temporaries: map<(nat, nat), Image>, initial: map<(nat, nat), Image>, pids: set<nat>,
                         name: (nat, nat), image: Image)
    requires FromRuns(temporaries, initial, pids) && name.0 in pids
    ensures FromRuns(temporaries[name := image], initial, pids)
  {
  }

  lemma OneLessTemporary(temporaries: map<(nat, nat), Image>, initial: map<(nat, nat), Image>, pids: set<nat>,
                         name: (nat, nat))
    requires FromRuns(temporaries, initial, pids)
    ensures FromRuns(temporaries - {name}, initial, pids)
  {
  }

  lemma OneMoreProcess(temporaries: map<(nat, nat), Image>, initial: map<(nat, nat), Image>, pids: set<nat>, pid: nat)
    requires FromRuns(temporaries, initial, pids)
    ensures FromRuns(temporaries, initial, pids + {pid})
  {
  }

  /** A process with a new number has all its names free. */
  lemma NewProcessHasRoom(temporaries: map<(nat, nat), Image>, initial: map<(nat, nat), Image>, pids: set<nat>,
                          pid: nat)
    requires FromRuns(temporaries, initial, pids) && pid !in pids && forall n: nat :: (pid, n) !in initial
    ensures HasRoom(temporaries, pid)
  {
    assert (pid, 0) !in temporaries;
  }

  datatype Restoration = Restoration(image: Image, temporary: Bytes)

  class Guest {
    /** What other programs write to the configuration; with an empty script nobody else edits. */
    const script: seq<Entry>
    /** The configuration before the first run. */
    ghost const original: Entry
    var config: Entry
    var backup: Entry
    var edited: nat
    /** Temporary files beside the configuration, by process and number. */
    var temporaries: map<(nat, nat), Image>
    var pid: nat
    ghost const initial: map<(nat, nat), Image>
    ghost var pids: set<nat>
    /** Nothing is killed, and every request to the system and the daemon gets an answer. */
    var reliable: bool
    ghost var log: seq<Event>
    ghost var state: State
    /** Where the current run issued the stop. */
    ghost var stopAt: Option<nat>

    /**
      What every step keeps: the files hold what the log says, every event was allowed, and the
      original is within reach unless others edit.
     */
    ghost predicate Valid()
      reads this
    {
      && Lawful(original, script, log) && state == StateAfter(original, log)
      && state.config == config && state.backup == backup && state.edited == edited <= |script|
      && (script == [] ==> Recoverable(config, backup, original))
      && pid in pids && FromRuns(temporaries, initial, pids)
      && StopsAt(state.run, stopAt) && (stopAt.Some? ==> stopAt.value < |state.run|)
    }

    /** A machine on which no shutdown has run; the temporaries are anyone's. */
    constructor (script: seq<Entry>, config: Entry, temporaries: map<(nat, nat), Image>)
      ensures Valid() && this.script == script && this.config == this.original == config
      ensures backup == Missing && log == [] && this.initial == temporaries && pids == {0}
    {
      this.script, this.original := script, config;
      this.config, this.backup, this.edited := config, Missing, 0;
      this.temporaries, this.initial, this.pid, this.pids, this.reliable := temporaries, temporaries, 0, {0}, false;
      this.log, this.state, this.stopAt := [], State(config, Missing, 0, []), None;
    }

    /** Records an event whose effect on the files has just happened. */
    ghost method Note(e: Event)
      requires Lawful(original, script, log) && state == StateAfter(original, log) && Allowed(state, e, script)
      requires var t := Step(state, e);
        && t.config == config && t.backup == backup && t.edited == edited <= |script|
      requires script == [] ==> Recoverable(config, backup, original)
      requires pid in pids && FromRuns(temporaries, initial, pids)
      requires StopsAfter(state.run, stopAt, e)
      modifies this`log, this`state
      ensures Valid() && log == old(log) + [e] && state == Step(old(state), e)
    {
      hide StopsAt, FromRuns, Lawful, StateAfter, Recoverable, SafeToStop, Swaps, Settled, LastConfig, DisabledConfig;
      LawfulStep(original, script, log, e);
      StopsStep(state, stopAt, e);
      log := log + [e];
      state := Step(state, e);
    }

    /** Without a backup the file is as it was, unless others edited it; a backup is usable. */
    lemma Unchanged()
      requires Valid()
      ensures script == [] && backup == Missing ==> config == original
      ensures script == [] && backup != Missing ==>
        && backup == original && original.Regular? && |original.image.bytes| <= LIMIT
        && DisabledConfig(original.image.bytes).Ok?
    {
    }

    // ----- The environment -----

    /** Other programs may write while the helper waits. */
    method Pause() returns (alive: bool)
      requires Valid()
      modifies this`config, this`edited, this`log, this`state
      ensures Valid() && old(log) <= log && state.run == old(state.run) && (script == [] ==> config == old(config))
      ensures reliable ==> alive
    {
      hide StopsAt, FromRuns, Lawful, StateAfter, Recoverable;
      var more: nat :| edited + more <= |script|;
      for k := 0 to more
        invariant Valid() && old(log) <= log && state.run == old(state.run) && edited == old(edited) + k
        invariant script == [] ==> config == old(config)
      {
        config := script[edited];
        edited := edited + 1;
        Note(Edited(config));
      }
      alive := *;
      alive := alive || reliable;
    }

    /** A request to the system, which may fail. */
    method Ask() returns (r: Outcome<(), Failure>)
      requires Valid()
      modifies this`config, this`edited, this`log, this`state
      ensures Valid() && old(log) <= log && state.run == old(state.run) && (script == [] ==> config == old(config))
      ensures r.Fault? ==> r.error == Io
      ensures reliable ==> r.Done?
    {
      hide StopsAt, FromRuns, Lawful, StateAfter, Recoverable;
      var alive := Pause();
      if !alive {
        return Killed;
      }
      if reliable {
        return Done(());
      }
      if * {
        return Fault(Io);
      }
      return Done(());
    }

    /** A new process starts, and has seen nothing yet. */
    method Begin(process: nat)
      requires Valid()
      modifies this`pid, this`pids, this`stopAt, this`log, this`state
      ensures Valid() && old(log) <= log && state.run == [] && stopAt == None
      ensures pid == process && pids == old(pids) + {process}
    {
      hide StopsAt, FromRuns, Lawful, StateAfter, Recoverable;
      OneMoreProcess(temporaries, initial, pids, process);
      pid, pids := process, pids + {process};
      stopAt := None;
      Note(Began);
    }

    // ----- Files -----

    method ReadConfig() returns (r: Outcome<Image, Failure>)
      requires Valid()
      modifies this`config, this`edited, this`log, this`state
      ensures Valid() && old(log) <= log && (script == [] ==> config == old(config))
      ensures r.Done? ==>
        && config == Regular(r.value) && |r.value.bytes| <= LIMIT
        && state.run == old(state.run) + [SawConfig(r.value.bytes)]
      ensures !r.Done? ==> state.run == old(state.run)
      ensures r.Fault? ==>
        r.error == Io || (r.error == Unreadable && !(config.Regular? && |config.image.bytes| <= LIMIT))
      ensures reliable ==> !r.Killed? && r != Fault(Io)
    {
      hide StopsAt, FromRuns, Lawful, StateAfter, Recoverable;
      var _ :- Ask();
      if !config.Regular? || |config.image.bytes| > LIMIT {
        return Fault(Unreadable);
      }
      Note(SawConfig(config.image.bytes));
      return Done(config.image);
    }

    method ReadBackup() returns (r: Outcome<Image, Failure>)
      requires Valid()
      modifies this`config, this`edited, this`log, this`state
      ensures Valid() && old(log) <= log && state.run == old(state.run) && (script == [] ==> config == old(config))
      ensures r.Done? ==> backup == Regular(r.value)
      ensures r.Fault? ==>
        r.error == Io || (r.error == Unreadable && !(backup.Regular? && |backup.image.bytes| <= LIMIT))
      ensures reliable ==> !r.Killed? && r != Fault(Io)
    {
      hide StopsAt, FromRuns, Lawful, StateAfter, Recoverable;
      var _ :- Ask();
      if !backup.Regular? || |backup.image.bytes| > LIMIT {
        return Fault(Unreadable);
      }
      return Done(backup.image);
    }

    /** The first number that is free, or that none is. */
    method FreeNumber() returns (number: nat)
      ensures number <= 100 && (number < 100 ==> (pid, number) !in temporaries)
      ensures forall n: nat :: n < number ==> (pid, n) in temporaries
    {
      number := 0;
      while number < 100 && (pid, number) in temporaries
        invariant number <= 100
        invariant forall n: nat :: n < number ==> (pid, n) in temporaries
      {
        number := number + 1;
      }
    }

    method Put(name: (nat, nat), image: Image)
      requires Valid() && name.0 == pid
      modifies this`temporaries
      ensures Valid() && temporaries == old(temporaries)[name := image]
    {
      hide StopsAt, FromRuns, Lawful, StateAfter, Recoverable;
      assert pid in pids;
      OneMoreTemporary(temporaries, initial, pids, name, image);
      temporaries := temporaries[name := image];
    }

    /** `write_temporary`: a complete copy under this process's first free number; no other file is touched. */
    method WriteTemporary(data: Bytes, meta: Meta) returns (r: Outcome<(nat, nat), Failure>)
      requires Valid()
      modifies this`config, this`edited, this`log, this`state, this`temporaries
      ensures Valid() && old(log) <= log && state.run == old(state.run) && (script == [] ==> config == old(config))
      ensures r.Done? ==>
        && r.value.0 == pid && r.value !in old(temporaries)
        && temporaries == old(temporaries)[r.value := Image(data, meta)]
      ensures r.Done? ==> forall n: nat :: n < r.value.1 ==> (pid, n) in old(temporaries)
      ensures forall n :: n in old(temporaries) ==> n in temporaries && temporaries[n] == old(temporaries)[n]
      ensures r.Fault? ==> FromSystem(r.error)
      ensures reliable && HasRoom(old(temporaries), pid) ==> r.Done?
      ensures r == Fault(TooManyTemporaries) ==> forall n: nat :: n < 100 ==> (pid, n) in old(temporaries)
    {
      hide Valid;
      var number := FreeNumber();
      if number == 100 {
        return Fault(TooManyTemporaries);
      }
      var name := (pid, number);
      var _ :- Ask();
      var part: Image := *;
      Put(name, part);
      // Ownership, mode, contents, sync; until then the file may hold anything.
      for step := 0 to 4
        invariant Valid() && old(log) <= log && state.run == old(state.run) && (script == [] ==> config == old(config))
        invariant name !in old(temporaries) && name in temporaries
        invariant temporaries == old(temporaries)[name := temporaries[name]]
        invariant step > 2 ==> temporaries[name] == Image(data, meta)
      {
        var done := Ask();
        if done.Killed? {
          return Killed;
        }
        if done.Fault? {
          Discard(name);
          return Fault(Io);
        }
        part := *;
        var written := if step < 2 then part else Image(data, meta);
        Put(name, written);
      }
      return Done(name);
    }

    /** `replace_file` */
    method ReplaceFile(data: Bytes, meta: Meta, expected: Bytes) returns (r: Outcome<(), Failure>)
      requires Valid() && Swaps(expected, Image(data, meta), backup)
      requires script == [] ==> config.Regular? && config.image.bytes == expected && |expected| <= LIMIT
      modifies this`config, this`edited, this`temporaries, this`log, this`state
      ensures Valid() && old(log) <= log && old(state.run) <= state.run
      ensures r.Done? ==> LastConfig(state.run) == Some(data) && (script == [] ==> config == Regular(Image(data, meta)))
      ensures r.Fault? ==> !FromDocker(r.error) && (script == [] ==> FromSystem(r.error))
      ensures r == Fault(ExternalEdit) ==> Writes(state.run) == Writes(old(state.run))
      ensures r.Done? ==>
        && |state.run| == |old(state.run)| + 2
        && state.run[|old(state.run)|].SawConfig? && state.run[|old(state.run)| + 1].Replaced?
      ensures DownSince(old(state.run), data) ==> DownSince(state.run, data)
      ensures reliable && HasRoom(old(temporaries), pid) ==>
        && !r.Killed? && (r.Fault? ==> r.error in {ExternalEdit, Unreadable})
        && (script == [] ==> r.Done? && temporaries == old(temporaries))
    {
      hide Valid, DisabledConfig, LastConfig, DownSince, Writes, Swaps, HasRoom;
      var name :- WriteTemporary(data, meta);
      assert temporaries - {name} == old(temporaries);
      r := Exchange(name, data, meta, expected);
      if r.Killed? {
        return;
      }
      Discard(name);
    }

    /** The comparison, the rename and the sync of `replace_file`. */
    method Exchange(name: (nat, nat), data: Bytes, meta: Meta, expected: Bytes) returns (r: Outcome<(), Failure>)
      requires Valid() && Swaps(expected, Image(data, meta), backup)
      requires script == [] ==> config.Regular? && config.image.bytes == expected && |expected| <= LIMIT
      requires name in temporaries && temporaries[name] == Image(data, meta)
      modifies this`config, this`edited, this`temporaries, this`log, this`state
      ensures Valid() && old(log) <= log && old(state.run) <= state.run
      ensures r.Done? ==> LastConfig(state.run) == Some(data) && (script == [] ==> config == Regular(Image(data, meta)))
      ensures r.Fault? ==> !FromDocker(r.error) && (script == [] ==> FromSystem(r.error))
      ensures r == Fault(ExternalEdit) ==> Writes(state.run) == Writes(old(state.run))
      ensures r.Done? ==>
        && |state.run| == |old(state.run)| + 2
        && state.run[|old(state.run)|].SawConfig? && state.run[|old(state.run)| + 1].Replaced?
      ensures DownSince(old(state.run), data) ==> DownSince(state.run, data)
      ensures reliable ==> !r.Killed? && (r.Fault? ==> r.error in {ExternalEdit, Unreadable})
      ensures reliable && script == [] ==> r.Done?
      ensures temporaries == old(temporaries) || temporaries == old(temporaries) - {name}
      ensures r.Done? ==> temporaries == old(temporaries) - {name}
    {
      hide Valid, DisabledConfig, LastConfig, DownSince, Writes, Down, Swaps;
      var current :- ReadConfig();
      WritesStep(old(state.run), SawConfig(current.bytes));
      DownStep(old(state.run), SawConfig(current.bytes), data);
      if current.bytes != expected {
        return Fault(ExternalEdit);
      }
      r := Rename(name, current, data, meta);
    }

    /** The rename and the sync. */
    method Rename(name: (nat, nat), current: Image, data: Bytes, meta: Meta) returns (r: Outcome<(), Failure>)
      requires Valid() && config == Regular(current) && Swaps(current.bytes, Image(data, meta), backup)
      requires name in temporaries && temporaries[name] == Image(data, meta)
      modifies this`config, this`edited, this`temporaries, this`log, this`state
      ensures Valid() && old(log) <= log && old(state.run) <= state.run
      ensures r.Done? ==> LastConfig(state.run) == Some(data) && (script == [] ==> config == Regular(Image(data, meta)))
      ensures r.Fault? ==> r.error == Io
      ensures r.Done? ==> |state.run| == |old(state.run)| + 1 && state.run[|old(state.run)|].Replaced?
      ensures DownSince(old(state.run), data) ==> DownSince(state.run, data)
      ensures reliable ==> r.Done?
      ensures temporaries == old(temporaries) || temporaries == old(temporaries) - {name}
      ensures r.Done? ==> temporaries == old(temporaries) - {name}
    {
      hide StopsAt, FromRuns, Lawful, StateAfter, DisabledConfig, LastConfig, DownSince, Down;
      if !reliable {
        if * {
          return Killed;
        }
        if * {
          return Fault(Io);
        }
      }
      ghost var event := Replaced(current, temporaries[name]);
      LastConfigStep(state.run, event);
      DownStep(state.run, event, data);
      config := Regular(temporaries[name]);
      OneLessTemporary(temporaries, initial, pids, name);
      temporaries := temporaries - {name};
      Note(event);
      r := Ask();
    }

    /** `save_backup`: a hard link never replaces an existing backup. */
    method SaveBackup(image: Image) returns (r: Outcome<(), Failure>)
      requires Valid() && LastConfig(state.run) == Some(image.bytes)
      requires DisabledConfig(image.bytes).Ok? && |image.bytes| <= LIMIT
      requires script == [] ==> config == Regular(image)
      modifies this`config, this`edited, this`backup, this`temporaries, this`log, this`state
      ensures Valid() && old(log) <= log && old(state.run) <= state.run && (script == [] ==> config == old(config))
      ensures r.Done? ==> backup == Regular(image) && state.run == old(state.run) + [Saved(image)]
      ensures backup == old(backup) || (old(backup) == Missing && backup == Regular(image))
      ensures r.Fault? ==> FromSystem(r.error)
      ensures reliable && HasRoom(old(temporaries), pid) && old(backup) == Missing ==>
        r.Done? && temporaries == old(temporaries)
    {
      hide Valid, DisabledConfig, LastConfig, HasRoom;
      var name :- WriteTemporary(image.bytes, image.meta);
      assert temporaries - {name} == old(temporaries);
      r := Link(name, image);
      if r.Killed? {
        return;
      }
      Discard(name);
    }

    /** A temporary that was created is removed, which may fail. */
    method Discard(name: (nat, nat))
      requires Valid()
      modifies this`temporaries
      ensures Valid() && temporaries in {old(temporaries), old(temporaries) - {name}}
      ensures reliable ==> temporaries == old(temporaries) - {name}
    {
      hide StopsAt, FromRuns, Lawful, StateAfter, Recoverable;
      var removed: bool := *;
      if removed || reliable {
        OneLessTemporary(temporaries, initial, pids, name);
        temporaries := temporaries - {name};
      }
    }

    /** The link and the sync of `save_backup`. */
    method Link(name: (nat, nat), image: Image) returns (r: Outcome<(), Failure>)
      requires Valid() && LastConfig(state.run) == Some(image.bytes)
      requires DisabledConfig(image.bytes).Ok? && |image.bytes| <= LIMIT
      requires script == [] ==> config == Regular(image)
      requires name in temporaries && temporaries[name] == image
      modifies this`config, this`edited, this`backup, this`log, this`state
      ensures Valid() && old(log) <= log && old(state.run) <= state.run && (script == [] ==> config == old(config))
      ensures r.Done? ==> backup == Regular(image) && state.run == old(state.run) + [Saved(image)]
      ensures backup == old(backup) || (old(backup) == Missing && backup == Regular(image))
      ensures r.Fault? ==> r.error == Io
      ensures reliable && old(backup) == Missing ==> r.Done?
    {
      hide StopsAt, FromRuns, Lawful, StateAfter, DisabledConfig, LastConfig;
      var _ :- Ask();
      if backup != Missing {
        return Fault(Io);
      }
      backup := Regular(temporaries[name]);
      Note(Saved(temporaries[name]));
      r := Ask();
    }

    /** `restore_file`: the original comes back, or another program's bytes stay. */
    method RestoreFile(image: Image, temporary: Bytes) returns (r: Outcome<(), Failure>)
      requires Valid() && backup == Regular(image) && DisabledConfig(image.bytes) == Ok(temporary)
      modifies this`config, this`edited, this`temporaries, this`log, this`state
      ensures Valid() && old(log) <= log && old(state.run) <= state.run
      ensures r.Done? ==> LastConfig(state.run) == Some(image.bytes) && (script == [] ==> config == Regular(image))
      ensures r.Fault? ==> !FromDocker(r.error) && (script == [] ==> FromSystem(r.error))
      ensures r == Fault(ExternalEdit) ==> Writes(state.run) == Writes(old(state.run))
      ensures |state.run| > |old(state.run)| ==> state.run[|old(state.run)|].SawConfig?
      ensures r.Done? ==>
        |state.run| > |old(state.run)| && OfFile(state.run[|old(state.run)|..]) && !JustEdited(state.run)
      ensures DownSince(old(state.run), image.bytes) ==> DownSince(state.run, image.bytes)
      ensures reliable && HasRoom(old(temporaries), pid) ==>
        && !r.Killed? && (r.Fault? ==> r.error in {ExternalEdit, Unreadable})
        && (script == [] ==> r.Done? && temporaries == old(temporaries))
    {
      hide StopsAt, FromRuns, Lawful, StateAfter, DisabledConfig, LastConfig, DownSince, Writes, Down, HasRoom;
      var current :- ReadConfig();
      LastConfigStep(old(state.run), SawConfig(current.bytes));
      WritesStep(old(state.run), SawConfig(current.bytes));
      DownStep(old(state.run), SawConfig(current.bytes), image.bytes);
      if current.bytes == temporary {
        hide *;
        r := ReplaceFile(image.bytes, image.meta, temporary);
        return;
      }
      if current.bytes != image.bytes {
        return Fault(ExternalEdit);
      }
      return Done(());
    }

    // ----- The daemon -----

    method ServiceState() returns (r: Outcome<Service, Failure>)
      requires Valid()
      modifies this`config, this`edited, this`log, this`state
      ensures Valid() && old(log) <= log && (script == [] ==> config == old(config))
      ensures r.Done? ==> state.run == old(state.run) + [SawService(r.value)]
      ensures !r.Done? ==> state.run == old(state.run)
      ensures r.Fault? ==> r.error == Io
      ensures reliable ==> r.Done?
    {
      hide StopsAt, FromRuns, Lawful, StateAfter, Recoverable;
      var _ :- Ask();
      var service: Service := *;
      Note(SawService(service));
      return Done(service);
    }

    method LiveRestore() returns (r: Outcome<bool, Failure>)
      requires Valid()
      modifies this`config, this`edited, this`log, this`state
      ensures Valid() && old(log) <= log && (script == [] ==> config == old(config))
      ensures r.Done? ==> state.run == old(state.run) + [SawLiveRestore(r.value)]
      ensures !r.Done? ==> state.run == old(state.run)
      ensures r.Fault? ==> r.error == Io
      ensures reliable ==> r.Done?
    {
      hide StopsAt, FromRuns, Lawful, StateAfter, Recoverable;
      var _ :- Ask();
      var enabled: bool := *;
      Note(SawLiveRestore(enabled));
      return Done(enabled);
    }

    /** `reload_config`: a signal, then questions until the daemon agrees or time is up. */
    method ReloadConfig(expected: bool) returns (r: Outcome<(), Failure>, ghost seen: seq<Event>)
      requires Valid()
      modifies this`config, this`edited, this`log, this`state
      ensures Valid() && old(log) <= log && (script == [] ==> config == old(config))
      ensures state.run == old(state.run) + seen && OfDaemon(seen)
      ensures r.Done? ==> seen != [] && seen[|seen| - 1] == SawLiveRestore(expected)
      ensures r.Fault? ==> r.error in {Io, NotActiveEnough, NotConfirmed}
      ensures reliable ==> !r.Killed? && r != Fault(Io) && (r.Fault? ==> SawLiveRestore(expected) !in seen)
      ensures reliable && r.Fault? && Target(old(state.run)) == Some(expected) ==> Cause(r.error, state.run)
    {
      hide Valid, Cause, Unconfirmed, Target;
      seen := [];
      assert state.run + [] == state.run;
      var state0 :- ServiceState();
      seen := [SawService(state0)];
      if Target(old(state.run)) == Some(expected) {
        ReloadCause(old(state.run), state0, expected);
      }
      if state0.activity != Active || state0.pid.None? || state0.pid.value <= 1 {
        return Fault(NotActiveEnough), seen;
      }
      var _ :- Ask();
      r, seen := Poll(expected, old(state.run), seen);
    }

    /** The questions of `reload_config`. */
    method Poll(expected: bool, ghost before: seq<Event>, ghost asked: seq<Event>)
        returns (r: Outcome<(), Failure>, ghost seen: seq<Event>)
      requires Valid() && state.run == before + asked && OfDaemon(asked) && SawLiveRestore(expected) !in asked
      modifies this`config, this`edited, this`log, this`state
      ensures Valid() && old(log) <= log && (script == [] ==> config == old(config))
      ensures state.run == before + seen && OfDaemon(seen)
      ensures r.Done? ==> seen != [] && seen[|seen| - 1] == SawLiveRestore(expected)
      ensures r.Fault? ==> r.error == NotConfirmed
      ensures reliable ==> !r.Killed? && (r.Fault? ==> SawLiveRestore(expected) !in seen)
      ensures reliable && r.Fault? && Unconfirmed(old(state.run), expected) ==> Cause(r.error, state.run)
    {
      hide Valid, Cause, Unconfirmed;
      seen := asked;
      var polls: nat :| 0 < polls;
      for poll := 0 to polls
        invariant Valid() && old(log) <= log && (script == [] ==> config == old(config))
        invariant state.run == before + seen && OfDaemon(seen) && SawLiveRestore(expected) !in seen
        invariant reliable && poll > 0 ==> seen != [] && seen[|seen| - 1].SawLiveRestore?
        invariant reliable && Unconfirmed(old(state.run), expected) ==> Unconfirmed(state.run, expected)
      {
        ghost var past := state.run;
        var answer := LiveRestore();
        if answer.Killed? {
          return Killed, seen;
        }
        if answer.Done? {
          seen := seen + [SawLiveRestore(answer.value)];
        }
        if answer == Done(expected) {
          return Done(()), seen;
        }
        if reliable && Unconfirmed(past, expected) {
          UnconfirmedStep(past, answer.value, expected);
        }
      }
      if reliable && Unconfirmed(state.run, expected) {
        UnconfirmedCause(state.run, expected);
      }
      return Fault(NotConfirmed), seen;
    }

    /** `restore_runtime`: the daemon is looked at anew, and found down or in agreement. */
    method RestoreRuntime(bytes: Bytes) returns (r: Outcome<(), Failure>, ghost seen: seq<Event>)
      requires Valid()
      modifies this`config, this`edited, this`log, this`state
      ensures Valid() && old(log) <= log && (script == [] ==> config == old(config))
      ensures state.run == old(state.run) + seen && OfDaemon(seen)
      ensures LastConfig(state.run) == LastConfig(old(state.run))
      ensures r.Done? ==> Settled(seen, bytes)
      ensures r.Fault? ==> FromSystem(r.error) || (r.error.Config? && DisabledConfig(bytes).Err?)
      ensures reliable && DisabledConfig(bytes).Ok? ==>
        && !r.Killed? && (r.Done? <==> Settles(seen, bytes))
        && (r.Fault? ==> r.error in {NotActiveEnough, NotConfirmed, Transitioning})
      ensures reliable && DisabledConfig(bytes).Ok? && r.Fault? ==>
        LastConfig(old(state.run)) == Some(bytes) && old(state.run) != [] && OfFile(old(state.run)) ==>
          Cause(r.error, state.run)
    {
      hide Valid, Cause, BooleanField, DisabledConfig, LastConfig, Setting, Settles, Settled, Target, OfDaemon;
      seen := [];
      SeenOfDaemon(old(state.run), seen);
      var service :- ServiceState();
      seen := [SawService(service)];
      SeenOfDaemon(old(state.run), seen);
      assert [SawService(service)] + [] == seen;
      SettlesBy(service, [], bytes);
      SettledBy(service, [], bytes);
      if old(state.run) != [] && OfFile(old(state.run)) {
        TransitionCause(old(state.run), service);
      }
      if service.activity == Active {
        r, seen := Follow(service, bytes);
      } else if service.activity in {Inactive, Failed} && service.pid == Some(0) {
        return Done(()), seen;
      } else {
        return Fault(Transitioning), seen;
      }
    }

    /** The reload of `restore_runtime`, by a service that was seen running. */
    method Follow(service: Service, bytes: Bytes) returns (r: Outcome<(), Failure>, ghost seen: seq<Event>)
      requires Valid() && state.run != [] && state.run[|state.run| - 1] == SawService(service)
      requires service.activity == Active
      modifies this`config, this`edited, this`log, this`state
      ensures Valid() && old(log) <= log && (script == [] ==> config == old(config))
      ensures var before := old(state.run)[..|old(state.run)| - 1];
        && state.run == before + seen && OfDaemon(seen) && LastConfig(state.run) == LastConfig(before)
        && (reliable && r.Fault? && DisabledConfig(bytes).Ok? && LastConfig(before) == Some(bytes) ==>
              Cause(r.error, state.run))
      ensures r.Done? ==> Settled(seen, bytes)
      ensures r.Fault? ==>
        r.error in {Io, NotActiveEnough, NotConfirmed} || (r.error.Config? && DisabledConfig(bytes).Err?)
      ensures reliable && DisabledConfig(bytes).Ok? ==>
        !r.Killed? && r != Fault(Io) && (r.Done? <==> Settles(seen, bytes))
    {
      hide Valid, Cause, BooleanField, DisabledConfig, LastConfig, Setting, Settles, Settled, Target, OfDaemon;
      ghost var before := state.run[..|state.run| - 1];
      seen := [SawService(service)];
      assert before + seen == state.run;
      SeenOfDaemon(before, seen);
      TargetHere(before, service);
      var setting := ReadBooleanField(bytes, LIVE_RESTORE);
      if setting.Err? {
        if DisabledConfig(bytes).Ok? {
          SettingIsReadable(bytes);
        }
        return Fault(Config(setting.error)), seen;
      }
      SettingIs(bytes, setting.value);
      ghost var reload;
      r, reload := ReloadConfig(setting.value == Some(true));
      OneLook(before, service, reload);
      seen := [SawService(service)] + reload;
      SeenOfDaemon(before, seen);
      SettlesBy(service, reload, bytes);
      SettledBy(service, reload, bytes);
    }

    // ----- Recovery -----

    method RemoveBackup() returns (r: Outcome<(), Failure>)
      requires Valid() && backup.Regular? && LastConfig(state.run) == Some(backup.image.bytes)
      requires Settled(state.run, backup.image.bytes)
      requires script == [] ==> config == original
      modifies this`config, this`edited, this`backup, this`log, this`state
      ensures Valid() && old(log) <= log && old(state.run) <= state.run
      ensures r.Done? ==> backup == Missing && state.run == old(state.run) + [Removed]
      ensures r.Fault? ==> r.error == Io
      ensures reliable ==> r.Done?
    {
      hide StopsAt, FromRuns, Lawful, StateAfter, LastConfig, Settled, DisabledConfig;
      var _ :- Ask();
      backup := Missing;
      Note(Removed);
      var _ :- Ask();
      return Done(());
    }

    /** `recover_backup`: puts back what an interrupted run left behind. */
    method RecoverBackup() returns (r: Outcome<(), Failure>)
      requires Valid()
      modifies this`config, this`edited, this`backup, this`temporaries, this`log, this`state
      ensures Valid() && old(log) <= log && old(state.run) <= state.run
      ensures r.Done? ==> backup == Missing && (script == [] ==> config == original)
      ensures r.Fault? && script == [] ==> FromSystem(r.error)
      ensures r == Fault(ExternalEdit) ==> backup == old(backup) && Writes(state.run) == Writes(old(state.run))
      ensures r.Fault? ==> !FromDocker(r.error)
      ensures r.Done? ==> state.run == old(state.run) || state.run[|state.run| - 1].Removed?
      ensures reliable && script == [] && HasRoom(old(temporaries), pid) ==>
        && config == original && temporaries == old(temporaries) && !r.Killed?
        && (r.Done? <==> old(backup) == Missing || Settles(AfterFile(state.run), old(backup).image.bytes))
        && (r.Fault? && old(state.run) == [] ==> Shown(r.error, state.run) && Blocked(state.run))
    {
      hide Valid, LastConfig, Settled, DisabledConfig, Writes, DownSince, HasRoom, Cause, Shown, Blocked, AfterFile,
           Settles, JustEdited;
      Unchanged();
      if backup == Missing {
        return Done(());
      }
      var image :- ReadBackup();
      var temporary := DisableLiveRestore(image.bytes);
      if temporary.Err? {
        return Fault(Config(temporary.error));
      }
      var _ :- RestoreFile(image, temporary.value);
      ghost var restored := state.run;
      var settled;
      ghost var seen;
      settled, seen := RestoreRuntime(image.bytes);
      AfterFileIs(restored, seen);
      if reliable && settled.Fault? && old(state.run) == [] {
        CauseIsShown(settled.error, state.run);
      }
      var _ :- settled;
      SettlesStill(state.run, image.bytes);
      SettledSince(restored, seen, image.bytes);
      r := RemoveBackup();
      Unchanged();
    }

    // ----- Shutdown -----

    ghost predicate Owed(x: Restoration)
      reads this
    {
      backup == Regular(x.image) && DisabledConfig(x.image.bytes) == Ok(x.temporary)
    }

    /** Live restore goes off in the daemon, and the file comes back. */
    method SwitchOff(image: Image, temporary: Bytes) returns (r: Outcome<(), Failure>, restoration: Option<Restoration>)
      requires Valid() && backup == Missing && LastConfig(state.run) == Some(image.bytes) && |image.bytes| <= LIMIT
      requires DisabledConfig(image.bytes) == Ok(temporary) && (script == [] ==> config == Regular(image))
      modifies this`config, this`edited, this`backup, this`temporaries, this`log, this`state
      ensures Valid() && old(log) <= log && old(state.run) <= state.run
      ensures restoration.Some? ==> Owed(restoration.value)
      ensures r.Done? ==> restoration.Some?
      ensures r.Fault? && script == [] ==> FromSystem(r.error)
      ensures r.Fault? ==> !FromDocker(r.error)
      ensures reliable && script == [] && HasRoom(old(temporaries), pid) ==>
        && restoration.Some? && temporaries == old(temporaries)
        && !r.Killed? && (r.Fault? ==> Shown(r.error, state.run) && Blocked(state.run))
      ensures r.Done? ==> Target(state.run).None? && !state.run[|state.run| - 1].StopIssued?
    {
      hide Valid, DisabledConfig, LastConfig, DownSince, Writes, HasRoom, Cause, Shown, Blocked;
      restoration := None;
      var _ :- SaveBackup(image);
      var _ :- ReplaceFile(temporary, image.meta, image.bytes);
      restoration := Some(Restoration(image, temporary));
      var loaded;
      ghost var seen;
      loaded, seen := ReloadConfig(false);
      if reliable && loaded.Fault? {
        CauseIsShown(loaded.error, state.run);
      }
      var _ :- loaded;
      r := RestoreFile(image, temporary);
    }

    /** The last look before the stop: the same main process, with live restore off. */
    method Confirm(service: Service) returns (r: Outcome<(), Failure>)
      requires Valid() && WasActive(state.run, service.pid)
      requires Target(state.run).None? && PreparedFor(state.run, service.pid) && !state.run[|state.run| - 1].StopIssued?
      modifies this`config, this`edited, this`log, this`state
      ensures Valid() && old(log) <= log && old(state.run) <= state.run && (script == [] ==> config == old(config))
      ensures r.Done? ==> SafeToStop(state.run) && state.run[|state.run| - 1] == SawLiveRestore(false)
      ensures r.Fault? ==> r.error in {Io, ChangedDuringPreparation}
      ensures reliable ==> !r.Killed? && (r.Fault? ==> Cause(r.error, state.run))
    {
      hide Valid, Cause, Target, PreparedFor;
      assert state.run != [];
      ghost var before := state.run;
      var now :- ServiceState();
      ChangeCause(before, service.pid, now);
      if now.pid != service.pid {
        return Fault(ChangedDuringPreparation);
      }
      var still :- LiveRestore();
      assert state.run[..|state.run| - 2] == before && state.run[|state.run| - 2] == SawService(now);
      return if still then Fault(ChangedDuringPreparation) else Done(());
    }

    /** The configuration, with its copy that has live restore off. */
    method ReadAndDisable() returns (r: Outcome<Restoration, Failure>)
      requires Valid() && backup == Missing
      modifies this`config, this`edited, this`log, this`state
      ensures Valid() && old(log) <= log && old(state.run) <= state.run && (script == [] ==> config == old(config))
      ensures r.Done? ==>
        && config == Regular(r.value.image) && |r.value.image.bytes| <= LIMIT
        && DisabledConfig(r.value.image.bytes) == Ok(r.value.temporary)
        && LastConfig(state.run) == Some(r.value.image.bytes)
      ensures r.Done? ==> state.run == old(state.run) + [SawConfig(r.value.image.bytes)]
      ensures r.Fault? && script == [] ==> Justified(r.error, original)
      ensures r.Fault? ==> !FromDocker(r.error)
      ensures reliable ==> !r.Killed? && r != Fault(Io)
      ensures reliable && script == [] && r.Fault? ==> Unusable(r.error, original)
    {
      assert script == [] ==> config == original;
      hide StopsAt, FromRuns, Lawful, StateAfter, DisabledConfig, Recoverable, LastConfig, FromDocker;
      var image :- ReadConfig();
      LastConfigStep(old(state.run), SawConfig(image.bytes));
      var disabled := DisableLiveRestore(image.bytes);
      return if disabled.Err? then Fault(Config(disabled.error)) else Done(Restoration(image, disabled.value));
    }

    /** The preparation in `shutdown`: a running daemon must have live restore off. */
    method TurnOff(service: Service) returns (r: Outcome<(), Failure>, restoration: Option<Restoration>)
      requires Valid() && backup == Missing && service.activity == Active
      requires state.run != [] && state.run[|state.run| - 1] == SawService(service)
      modifies this`config, this`edited, this`backup, this`temporaries, this`log, this`state
      ensures Valid() && old(log) <= log && old(state.run) <= state.run
      ensures restoration.Some? ==> Owed(restoration.value)
      ensures restoration.None? && r.Done? ==> backup == Missing
      ensures r.Done? ==> SafeToStop(state.run) && state.run[|state.run| - 1] == SawLiveRestore(false)
      ensures r.Fault? && script == [] ==> Justified(r.error, original)
      ensures r.Fault? && FromDocker(r.error) && restoration.None? ==> backup == Missing
      ensures reliable && script == [] && HasRoom(old(temporaries), pid) ==>
        && (restoration.None? ==> backup == Missing)
        && temporaries == old(temporaries) && !r.Killed?
        && (r.Fault? ==> Unusable(r.error, original) || (Shown(r.error, state.run) && Blocked(state.run)))
      ensures reliable && script == [] && HasRoom(old(temporaries), pid) && restoration.Some? && r.Fault? ==>
        Shown(r.error, state.run)
    {
      hide StopsAt, FromRuns, Lawful, StateAfter, DisabledConfig, Recoverable, WasActive, SafeToStop, LastConfig,
           HasRoom,
           Shown, Cause, Blocked, Prepared, PreparedFor, Target;
      assert WasActive(state.run, service.pid) by {
        WasActiveNow(state.run, service);
      }
      restoration := None;
      var disabled :- ReadAndDisable();
      ghost var read := state.run;
      var enabled :- LiveRestore();
      PreparationStarts(old(state.run), service, disabled.image.bytes, enabled);
      NoTarget(read, enabled);
      ghost var prepared := state.run;
      if enabled {
        LastConfigStep(read, SawLiveRestore(enabled));
        r, restoration := SwitchOff(disabled.image, disabled.temporary);
        if !r.Done? {
          return;
        }
      }
      WasActiveGrows(old(state.run), state.run, service.pid);
      PreparedGrows(prepared, state.run, service.pid);
      r := Confirm(service);
      if reliable && r.Fault? {
        CauseIsShown(r.error, state.run);
      }
    }

    method SocketInactive() returns (r: Outcome<bool, Failure>)
      requires Valid()
      modifies this`config, this`edited, this`log, this`state
      ensures Valid() && old(log) <= log && (script == [] ==> config == old(config))
      ensures r.Done? ==> state.run == old(state.run) + [SawSocket(r.value)]
      ensures !r.Done? ==> state.run == old(state.run)
      ensures r.Fault? ==> r.error == Io
      ensures reliable ==> r.Done?
    {
      hide StopsAt, FromRuns, Lawful, StateAfter, Recoverable;
      var _ :- Ask();
      var inactive: bool := *;
      Note(SawSocket(inactive));
      return Done(inactive);
    }

    /** `docker_shims_remain`, which answers in any case. */
    method ShimsRemaining() returns (r: Outcome<bool, Failure>)
      requires Valid()
      modifies this`config, this`edited, this`log, this`state
      ensures Valid() && old(log) <= log && (script == [] ==> config == old(config))
      ensures r.Done? ==> state.run == old(state.run) + [SawShims(r.value)]
      ensures !r.Done? ==> state.run == old(state.run)
      ensures !r.Fault? && (reliable ==> r.Done?)
    {
      hide StopsAt, FromRuns, Lawful, StateAfter, Recoverable;
      var alive := Pause();
      if !alive {
        return Killed;
      }
      var remain: bool := *;
      Note(SawShims(remain));
      return Done(remain);
    }

    /** The run has not stopped Docker, or not cleanly. */
    ghost predicate Stopless()
      reads this
    {
      stopAt.Some? ==> FailedAt(state.run, stopAt.value)
    }

    /** The request to stop, and how the service ended. */
    method Stop() returns (r: Outcome<Service, Failure>)
      requires Valid() && SafeToStop(state.run) && stopAt == None
      modifies this`config, this`edited, this`stopAt, this`log, this`state
      ensures Valid() && old(log) <= log && (script == [] ==> config == old(config))
      ensures old(state.run) <= state.run
      ensures r.Done? ==> state.run == old(state.run) + [StopIssued] + [SawService(r.value)]
      ensures stopAt == Some(|old(state.run)|)
      ensures r.Fault? ==> r.error == Io
      ensures reliable ==> r.Done?
    {
      hide StopsAt, FromRuns, Lawful, StateAfter, Recoverable, SafeToStop;
      stopAt := Some(|state.run|);
      Note(StopIssued);
      var _ :- Ask();
      r := ServiceState();
    }

    /** What is left after the stop: the socket, how the service ended, and containers. */
    method LookAround(active: bool, stopped: Service) returns (r: Outcome<(), Failure>)
      requires Valid() && |state.run| > 1
      requires state.run[|state.run| - 1] == SawService(stopped) && state.run[|state.run| - 2] == StopIssued
      requires active && |state.run| > 2 ==> !SawIdle(state.run[|state.run| - 3])
      modifies this`config, this`edited, this`log, this`state
      ensures Valid() && old(log) <= log && old(state.run) <= state.run && (script == [] ==> config == old(config))
      ensures r.Done? ==>
        && stopped.activity == Inactive && (active ==> stopped.success)
        && state.run == old(state.run) + [SawSocket(true)] + [SawShims(false)]
      ensures r.Fault? ==> r.error == Io || FromDocker(r.error)
      ensures reliable ==>
        !r.Killed? && (r.Fault? ==> Cause(r.error, state.run) && FailedAt(state.run, |old(state.run)| - 2))
    {
      hide Valid, Cause, FailedAt;
      StopFailsAt(state.run, stopped, true);
      StopFailsAt(state.run, stopped, false);
      StopCause(state.run, stopped, true);
      StopCause(state.run, stopped, false);
      var inactive :- SocketInactive();
      if stopped.activity != Inactive || !inactive {
        return Fault(NotStopped);
      }
      if active && !stopped.success {
        return Fault(StopFailed);
      }
      var remain :- ShimsRemaining();
      return if remain then Fault(ShimsRemain) else Done(());
    }

    /** Stops the service and the socket, and looks at what is left. */
    method StopServices(active: bool) returns (r: Outcome<(), Failure>)
      requires Valid() && SafeToStop(state.run) && stopAt == None
      requires active <==> !SawIdle(state.run[|state.run| - 1])
      modifies this`config, this`edited, this`stopAt, this`log, this`state
      ensures Valid() && old(log) <= log && old(state.run) <= state.run && (script == [] ==> config == old(config))
      ensures r.Done? ==> JustStopped(state.run)
      ensures r.Fault? ==> r.error == Io || FromDocker(r.error)
      ensures reliable ==> !r.Killed? && (r.Fault? ==> Cause(r.error, state.run) && Stopless())
    {
      ghost var before := state.run;
      assert active || SawIdle(before[|before| - 1]);
      hide Valid, SafeToStop, JustStopped, FromDocker, SawIdle, Cause, FailedAt;
      var stopped :- Stop();
      r := LookAround(active, stopped);
      if r.Done? {
        CleanStop(before, stopped);
      }
    }

    /** The closure in `shutdown`. */
    method StopDocker(service: Service) returns (r: Outcome<(), Failure>, restoration: Option<Restoration>)
      requires Valid() && stopAt == None && backup == Missing && service.activity != Other
      requires state.run != [] && state.run[|state.run| - 1] == SawService(service)
      modifies this`config, this`edited, this`backup, this`temporaries, this`stopAt, this`log,
               this`state
      ensures Valid() && old(log) <= log && old(state.run) <= state.run
      ensures restoration.Some? ==> Owed(restoration.value)
      ensures restoration.None? && r.Done? ==> backup == Missing
      ensures r.Done? ==> JustStopped(state.run)
      ensures r.Fault? && script == [] ==> Justified(r.error, original)
      ensures r.Fault? && FromDocker(r.error) && restoration.None? ==> backup == Missing
      ensures reliable && script == [] && HasRoom(old(temporaries), pid) ==>
        && (restoration.None? ==> backup == Missing)
        && temporaries == old(temporaries) && !r.Killed?
        && (r.Fault? ==> Unusable(r.error, original) || (Shown(r.error, state.run) && Blocked(state.run)))
      ensures reliable && script == [] && HasRoom(old(temporaries), pid) && restoration.Some? && r.Fault? ==>
        Shown(r.error, state.run)
      ensures reliable && script == [] && HasRoom(old(temporaries), pid) && r.Fault? ==> Stopless()
    {
      hide StopsAt, FromRuns, Lawful, StateAfter, DisabledConfig, Recoverable, JustStopped, HasRoom, Shown, Cause,
           Blocked, FailedAt;
      restoration := None;
      if service.activity == Active {
        r, restoration := TurnOff(service);
        if !r.Done? {
          return;
        }
      }
      r := StopServices(service.activity == Active);
      if reliable && r.Fault? {
        CauseIsShown(r.error, state.run);
      }
    }

    /** The end of `shutdown`: the file, after a failure also the daemon, and then the backup. */
    method FinishRestoration(x: Restoration, result: Outcome<(), Failure>) returns (r: Outcome<(), Failure>)
      requires Valid() && Owed(x) && !result.Killed?
      requires result.Done? ==> JustStopped(state.run)
      modifies this`config, this`edited, this`backup, this`temporaries, this`log, this`state
      ensures Valid() && old(log) <= log && old(state.run) <= state.run
      ensures r.Done? ==> backup == Missing
      ensures r.Fault? && script == [] ==> FromSystem(r.error)
      ensures r == Fault(ExternalEdit) ==> backup == old(backup) && Writes(state.run) == Writes(old(state.run))
      ensures r.Fault? ==> !FromDocker(r.error)
      ensures r.Done? && script == [] ==> config == original
      ensures |state.run| > |old(state.run)| ==> state.run[|old(state.run)|].SawConfig?
      ensures reliable && script == [] && HasRoom(old(temporaries), pid) ==>
        && config == original && temporaries == old(temporaries) && !r.Killed?
        && (r.Done? <==> result.Done? || Settles(AfterFile(state.run), x.image.bytes))
        && (r.Fault? ==> Unsettled(r.error, state.run, original))
    {
      hide Valid, DisabledConfig, JustStopped, LastConfig, DownSince, AgreesSince, Writes, HasRoom, Cause, Shown,
           AfterFile, Settles, JustEdited;
      Unchanged();
      if result.Done? {
        StoppedIsDown(state.run, x.image.bytes);
      }
      var _ :- RestoreFile(x.image, x.temporary);
      ghost var restored := state.run;
      if result.Fault? {
        var settled;
        ghost var seen;
        settled, seen := RestoreRuntime(x.image.bytes);
        AfterFileIs(restored, seen);
        var _ :- settled;
        SettlesStill(state.run, x.image.bytes);
        SettledSince(restored, seen, x.image.bytes);
      }
      r := RemoveBackup();
      Unchanged();
    }

    /** What `shutdown` does after its closure, when a restoration is owed. */
    method Conclude(x: Restoration, result: Outcome<(), Failure>) returns (r: Outcome<(), Failure>)
      requires Valid() && Owed(x) && !result.Killed?
      requires result.Done? ==> JustStopped(state.run)
      modifies this`config, this`edited, this`backup, this`temporaries, this`log, this`state
      ensures Valid() && old(log) <= log
      ensures r.Done? ==> result.Done? && StoppedCleanly(state.run) && backup == Missing
      ensures r.Done? && script == [] ==> config == original
      ensures r.Fault? ==> r == result || (!FromDocker(r.error) && (script == [] ==> FromSystem(r.error)))
      ensures r.Fault? && FromDocker(r.error) ==> backup == Missing && (script == [] ==> config == original)
      ensures reliable && script == [] && HasRoom(old(temporaries), pid) ==>
        && config == original && !r.Killed? && (r.Done? <==> result.Done?)
        && (old(Stopless()) ==> Stopless())
      ensures reliable && script == [] && HasRoom(old(temporaries), pid) && r.Fault? ==>
        Shown(result.error, old(state.run)) ==>
          Blocked(state.run) && (Shown(r.error, state.run) || Unsettled(r.error, state.run, original))
    {
      hide Valid, Owed, DisabledConfig, StoppedCleanly, JustStopped, HasRoom, Shown, Cause, Blocked, Unsettled,
           FailedAt,
           Stopless, AfterFile, Settles;
      ghost var stopped := state.run;
      if result.Done? {
        StoppedIsDown(stopped, []);
      }
      StoplessIs();
      r := FinishRestoration(x, result);
      if old(Stopless()) {
        StoplessStill(stopped);
      }
      Unchanged();
      if !r.Done? {
        if result.Fault? && Shown(result.error, stopped) {
          ShownGrows(result.error, stopped, state.run);
        }
        return;
      }
      if result.Done? {
        StoppedGrows(stopped, state.run);
      } else if Shown(result.error, stopped) {
        ShownGrows(result.error, stopped, state.run);
      }
      r := result;
    }

    /** `shutdown` */
    method Shutdown(process: nat) returns (r: Outcome<(), Failure>)
      requires Valid()
      modifies this`config, this`edited, this`backup, this`temporaries, this`pid, this`pids, this`stopAt, this`log,
               this`state
      ensures Valid() && old(log) <= log && pid == process && pids == old(pids) + {process}
      ensures r.Done? ==> StoppedCleanly(state.run) && backup == Missing && (script == [] ==> config == original)
      ensures r.Fault? && script == [] ==> Justified(r.error, original)
      ensures r.Fault? && FromDocker(r.error) ==> backup == Missing && (script == [] ==> config == original)
      ensures reliable && script == [] && HasRoom(old(temporaries), pid) ==>
        && config == original && !r.Killed? && (r.Done? <==> StoppedCleanly(state.run))
        && (r.Fault? && !Unusable(r.error, original) ==>
              Blocked(state.run) && (Shown(r.error, state.run) || Unsettled(r.error, state.run, original)))
    {
      hide Valid, Owed, DisabledConfig, StoppedCleanly, JustStopped, HasRoom, Shown, Cause, Blocked, Unusable,
           Unsettled,
           SafeToStop, FailedAt, Stopless, AfterFile, Settles;
      Begin(process);
      var recovery := RecoverBackup();
      NeverStopped();
      var _ :- recovery;
      ghost var recovered := state.run;
      var service :- ServiceState();
      NeverStopped();
      Unchanged();
      if service.activity == Other {
        BusyCause(recovered, service);
        CauseIsShown(Busy, state.run);
        return Fault(Busy);
      }
      var restoration;
      r, restoration := StopDocker(service);
      if r.Killed? {
        return;
      }
      if restoration.Some? {
        r := Conclude(restoration.value, r);
      } else if r.Done? {
        StoppedIsDown(state.run, []);
      }
      NeverStopped();
      Unchanged();
    }

    /** A run that has not stopped Docker, or not cleanly, has not stopped it cleanly. */
    lemma NeverStopped()
      requires Valid()
      ensures stopAt == None ==> Stopless()
      ensures Stopless() ==> !StoppedCleanly(state.run)
    {
      if Stopless() {
        NotClean(state.run, stopAt);
      }
    }

    lemma StoplessIs()
      ensures Stopless() ==> (stopAt.Some? ==> FailedAt(state.run, stopAt.value))
    {
    }

    lemma StoplessStill(before: seq<Event>)
      requires Valid() && before <= state.run && (stopAt.Some? ==> FailedAt(before, stopAt.value))
      ensures Stopless()
    {
      if stopAt.Some? {
        FailedGrows(before, state.run, stopAt.value);
      }
    }
  }

  /**
    Any number of runs beside any script of edits, each run failing or killed anywhere, and then
    one recovery that the system lets through. The files end as a lawful history leaves them. With
    nobody else editing, every run leaves the first file in place or in the backup, and the
    recovery puts it back, whatever the daemon does; the backup goes too, unless what the run saw
    of the daemon forbids it.
   */
  method AnyHistory(first: Entry, temporaries: map<(nat, nat), Image>, script: seq<Entry>, processes: seq<nat>,
                    last: nat)
      returns (config: Entry, backup: Entry, r: Outcome<(), Failure>, recovered: Entry, left: Entry,
               ghost log: seq<Event>)
    ensures Lawful(first, script, log)
    ensures StateAfter(first, log).config == recovered && StateAfter(first, log).backup == left
    ensures script == [] ==> Recoverable(config, backup, first) && Recoverable(recovered, left, first)
    ensures r.Done? ==> left == Missing && (script == [] ==> recovered == first)
    ensures r.Fault? && script == [] ==> FromSystem(r.error)
    ensures script == [] && last != 0 && last !in processes && (forall n: nat :: (last, n) !in temporaries) ==>
      && recovered == first && !r.Killed?
      && (r.Done? <==> backup == Missing || Settles(AfterFile(StateAfter(first, log).run), backup.image.bytes))
      && (r.Fault? ==> Shown(r.error, StateAfter(first, log).run))
  {
    hide Lawful, StateAfter, Recoverable, HasRoom, Shown, FromRuns, AfterFile, Settles, StopsAt;
    var guest := new Guest(script, first, temporaries);
    for i := 0 to |processes|
      invariant guest.Valid() && fresh(guest) && guest.script == script && guest.original == first
      invariant guest.initial == temporaries && guest.pids <= {0} + set p | p in processes
    {
      guest.reliable := *;
      if * {
        var _ := guest.Shutdown(processes[i]);
      } else {
        guest.Begin(processes[i]);
        var _ := guest.RecoverBackup();
      }
      var _ := guest.Pause();
    }
    config, backup := guest.config, guest.backup;
    if last != 0 && last !in processes && forall n: nat :: (last, n) !in temporaries {
      NewProcessHasRoom(guest.temporaries, temporaries, guest.pids, last);
    }
    guest.Begin(last);
    guest.reliable := true;
    r := guest.RecoverBackup();
    recovered, left, log := guest.config, guest.backup, guest.log;
  }

  // ----- The host -----

  datatype VmStatus = NoVm | Stopped | Running | Unusual

  datatype StopError = HostFailure | Unavailable | DockerNotStopped | VmGone | VmNotStopped

  class Host {
    /** No command fails or takes too long. */
    const reliable: bool
    /** Whether this run asked for the VM's power-off. */
    var requested: bool

    /**
      `stop_locked` of src/runtime.rs, with the VM's status before and after: without force, Docker
      has stopped cleanly before power-off is asked for, and then it is asked for.
     */
    method StopLocked(guest: Guest, force: bool, before: VmStatus, after: VmStatus) returns (r: Result<(), StopError>)
      requires guest.Valid()
      modifies this, guest
      ensures guest.Valid()
      ensures force ==>
        guest.log == old(guest.log) && guest.config == old(guest.config) && guest.backup == old(guest.backup)
      ensures requested && !force ==>
        && StoppedCleanly(guest.state.run) && guest.backup == Missing
        && (guest.script == [] ==> guest.config == guest.original)
      ensures requested ==> before in {Running, Unusual} && (before == Unusual ==> force)
      ensures r.Ok? ==> requested || before in {NoVm, Stopped}
      ensures reliable && before in {NoVm, Stopped} ==> r == Ok(()) && !requested
      ensures reliable && before == Unusual && !force ==> r == Err(Unavailable)
      ensures reliable && before in {Running, Unusual} && force ==> requested
      ensures reliable && before == Running ==> requested || r == Err(DockerNotStopped)
      ensures reliable && requested ==>
        r == if after == Stopped then Ok(()) else if after == NoVm then Err(VmGone) else Err(VmNotStopped)
      ensures reliable && guest.reliable && guest.script == [] && !force && before == Running ==>
        HasRoom(old(guest.temporaries), guest.pid) ==>
          (requested <==> StoppedCleanly(guest.state.run))
    {
      hide HasRoom, Shown, Blocked, Unusable, Unsettled, StoppedCleanly;
      requested := false;
      var unchecked: bool := *;
      if unchecked && !reliable {
        return Err(HostFailure);
      }
      if before == NoVm || before == Stopped {
        return Ok(());
      }
      if before != Running && !force {
        return Err(Unavailable);
      }
      if !force {
        var process: nat :| 0 <= process;
        var stopped := guest.Shutdown(process);
        if !stopped.Done? {
          return Err(DockerNotStopped);
        }
        // The host stops waiting after three minutes, whatever the guest does.
        var late: bool := *;
        if late && !reliable {
          return Err(DockerNotStopped);
        }
      }
      requested := true;
      var failed: bool := *;
      if failed && !reliable {
        return Err(HostFailure);
      }
      if after == NoVm {
        return Err(VmGone);
      }
      return if after == Stopped then Ok(()) else Err(VmNotStopped);
    }
  }
}
