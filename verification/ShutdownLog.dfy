/**
  The history of the shutdown protocol of guest/docker-shutdown.rs: the events of any
  number of runs and of other programs' edits between and during them, what the two files
  hold after them, and which events may follow which.
 */
module ShutdownLog {
  import opened Outcomes
  import opened Utf8
  import opened DockerConfig

  // ----- What the helper sees -----

  datatype Meta = Meta(owner: nat, group: nat, mode: nat)
  datatype Image = Image(bytes: Bytes, meta: Meta)

  /** What a path leads to. */
  datatype Entry = Missing | Special | Regular(image: Image)

  datatype Activity = Active | Inactive | Failed | Other
  datatype Service = Service(activity: Activity, pid: Option<nat>, success: bool)

  datatype Event =
    | Began
    | Edited(now: Entry)
    | SawConfig(bytes: Bytes)
    | Replaced(before: Image, after: Image)
    | Saved(saved: Image)
    | Removed
    | SawService(service: Service)
    | SawLiveRestore(enabled: bool)
    | StopIssued
    | SawSocket(inactive: bool)
    | SawShims(remain: bool)

  // ----- What the events add up to -----

  /** The two files, the number of edits by others, and the helper's own events in the current run. */
  datatype State = State(config: Entry, backup: Entry, edited: nat, run: seq<Event>)

  function Step(s: State, e: Event): State {
    match e
    case Began => s.(run := [])
    case Edited(now) => s.(config := now, edited := s.edited + 1)
    case Replaced(_, after) => s.(config := Regular(after), run := s.run + [e])
    case Saved(saved) => s.(backup := Regular(saved), run := s.run + [e])
    case Removed => s.(backup := Missing, run := s.run + [e])
    case _ => s.(run := s.run + [e])
  }

  function StateAfter(first: Entry, log: seq<Event>): State {
    if log == [] then State(first, Missing, 0, []) else Step(StateAfter(first, log[..|log| - 1]), log[|log| - 1])
  }

  // ----- What a run has seen -----

  /** The live-restore setting that a configuration asks for. */
  predicate Setting(original: Bytes) {
    BooleanField(original, LIVE_RESTORE) == Ok(Some(true))
  }

  predicate Down(s: Service) {
    s.activity == Inactive || (s.activity == Failed && s.pid == Some(0))
  }

  /** The bytes last seen, or put, in the configuration. */
  function LastConfig(run: seq<Event>): Option<Bytes> {
    if run == [] then None
    else
      var e := run[|run| - 1];
      if e.SawConfig? then Some(e.bytes)
      else if e.Replaced? then Some(e.after.bytes)
      else LastConfig(run[..|run| - 1])
  }

  /**
    Since the backup was saved, and since its bytes `o` were last replaced, the service was seen down,
    and not up after that.
   */
  predicate DownSince(run: seq<Event>, o: Bytes) {
    && run != []
    && var e := run[|run| - 1];
       if e.SawService? then Down(e.service)
       else !e.Saved? && (e.Replaced? ==> e.after.bytes == o) && DownSince(run[..|run| - 1], o)
  }

  /** Since a file was last written, the daemon was seen to do what `o` asks for, and not something else after that. */
  predicate AgreesSince(run: seq<Event>, o: Bytes) {
    && run != []
    && var e := run[|run| - 1];
       if e.SawLiveRestore? then e.enabled == Setting(o)
       else !e.Saved? && !e.Replaced? && AgreesSince(run[..|run| - 1], o)
  }

  predicate Settled(run: seq<Event>, o: Bytes) {
    DownSince(run, o) || AgreesSince(run, o)
  }

  /** How often the run has written either file. */
  function Writes(run: seq<Event>): nat {
    if run == [] then 0
    else
      var e := run[|run| - 1];
      Writes(run[..|run| - 1]) + if e.Replaced? || e.Saved? || e.Removed? then 1 else 0
  }

  predicate SawIdle(e: Event) {
    e.SawService? && e.service.activity in {Inactive, Failed}
  }

  predicate SawActive(e: Event, pid: Option<nat>) {
    e.SawService? && e.service.activity == Active && e.service.pid == pid
  }

  predicate WasActive(run: seq<Event>, pid: Option<nat>) {
    exists j | 0 <= j < |run| :: SawActive(run[j], pid)
  }

  /** The service was seen idle, or live restore was seen off in a daemon whose main process had not changed. */
  predicate SafeToStop(run: seq<Event>) {
    var n := |run|;
    || (n >= 1 && SawIdle(run[n - 1]))
    || (&& n >= 3 && run[n - 1] == SawLiveRestore(false) && run[n - 2].SawService?
        && WasActive(run[..n - 2], run[n - 2].service.pid))
  }

  /** The four events of a clean stop; a daemon that was running must also have exited successfully. */
  predicate StoppedAt(run: seq<Event>, i: nat) {
    && i + 3 < |run| && run[i].StopIssued?
    && run[i + 1].SawService? && run[i + 1].service.activity == Inactive
    && (run[i + 1].service.success || (i > 0 && SawIdle(run[i - 1])))
    && run[i + 2] == SawSocket(true) && run[i + 3] == SawShims(false)
  }

  ghost predicate StoppedCleanly(run: seq<Event>) {
    exists i: nat :: StoppedAt(run, i)
  }

  predicate JustStopped(run: seq<Event>) {
    |run| >= 4 && StoppedAt(run, |run| - 4)
  }

  // ----- What may happen -----

  /** Bytes move only between the backup's and its copy with live restore off, with the backup's ownership and mode. */
  predicate Swaps(before: Bytes, after: Image, backup: Entry) {
    && backup.Regular? && after.meta == backup.image.meta
    && var o := backup.image.bytes;
       || (before == o && DisabledConfig(o) == Ok(after.bytes))
       || (DisabledConfig(o) == Ok(before) && after.bytes == o)
  }

  /** Whether an event may follow; `script` holds what other programs write, in their order. */
  predicate Allowed(s: State, e: Event, script: seq<Entry>) {
    match e
    case Edited(now) => s.edited < |script| && now == script[s.edited]
    case SawConfig(bytes) => s.config.Regular? && s.config.image.bytes == bytes
    case Replaced(before, after) => s.config == Regular(before) && Swaps(before.bytes, after, s.backup)
    case Saved(saved) =>
      s.backup == Missing && LastConfig(s.run) == Some(saved.bytes) && DisabledConfig(saved.bytes).Ok?
    case Removed =>
      && s.backup.Regular? && LastConfig(s.run) == Some(s.backup.image.bytes)
      && Settled(s.run, s.backup.image.bytes)
    case StopIssued => SafeToStop(s.run)
    case _ => true
  }

  predicate Lawful(first: Entry, script: seq<Entry>, log: seq<Event>) {
    log != [] ==>
      && Lawful(first, script, log[..|log| - 1])
      && Allowed(StateAfter(first, log[..|log| - 1]), log[|log| - 1], script)
  }

  lemma LawfulStep(first: Entry, script: seq<Entry>, log: seq<Event>, e: Event)
    requires Lawful(first, script, log) && Allowed(StateAfter(first, log), e, script)
    ensures Lawful(first, script, log + [e]) && StateAfter(first, log + [e]) == Step(StateAfter(first, log), e)
  {
    hide Allowed, Step;
    assert (log + [e])[..|log|] == log;
  }

  /** In a lawful history every event was allowed when it happened. */
  lemma {:induction false} LawfulAt(first: Entry, script: seq<Entry>, log: seq<Event>, i: nat)
    requires Lawful(first, script, log) && i < |log|
    ensures Allowed(StateAfter(first, log[..i]), log[i], script)
    ensures StateAfter(first, log[..i + 1]) == Step(StateAfter(first, log[..i]), log[i])
    decreases |log|
  {
    hide Allowed, Step;
    if i < |log| - 1 {
      var p := log[..|log| - 1];
      LawfulAt(first, script, p, i);
      assert p[..i] == log[..i] && p[..i + 1] == log[..i + 1];
    } else {
      assert log[..i + 1] == log && log[..i + 1][..i] == log[..i];
    }
  }

  /**
    What a lawful history did to the two files. Only other programs' edits and the swaps of the
    backup's bytes with their edited copy change the configuration, so other bytes stay. A backup
    is never overwritten, and it goes only after its bytes were the last ones seen in place and
    the daemon had settled since. Docker is stopped only when that is safe.
   */
  lemma LawfulHistory(first: Entry, script: seq<Entry>, log: seq<Event>, i: nat)
    requires Lawful(first, script, log) && i < |log|
    ensures var s, t := StateAfter(first, log[..i]), StateAfter(first, log[..i + 1]);
      && (t.config != s.config && !log[i].Edited? ==>
            s.config.Regular? && t.config.Regular? && Swaps(s.config.image.bytes, t.config.image, s.backup))
      && (log[i].Edited? ==> s.edited < |script| && t.config == script[s.edited] && t.backup == s.backup)
      && (t.backup != s.backup ==>
            if s.backup == Missing then
              t.backup.Regular? && LastConfig(s.run) == Some(t.backup.image.bytes)
            else
              && s.backup.Regular? && t.backup == Missing
              && LastConfig(s.run) == Some(s.backup.image.bytes) && Settled(s.run, s.backup.image.bytes))
      && (log[i].StopIssued? ==> SafeToStop(s.run))
  {
    hide Swaps, SafeToStop, Lawful, LastConfig, Settled, StateAfter, DisabledConfig;
    LawfulAt(first, script, log, i);
  }

  // ----- How what was seen changes -----

  lemma WritesStep(run: seq<Event>, e: Event)
    ensures Writes(run + [e]) == Writes(run) + if e.Replaced? || e.Saved? || e.Removed? then 1 else 0
  {
    assert (run + [e])[..|run|] == run;
  }

  lemma LastConfigStep(run: seq<Event>, e: Event)
    ensures LastConfig(run + [e]) ==
      if e.SawConfig? then Some(e.bytes) else if e.Replaced? then Some(e.after.bytes) else LastConfig(run)
  {
    assert (run + [e])[..|run|] == run;
  }

  lemma DownStep(run: seq<Event>, e: Event, o: Bytes)
    ensures DownSince(run + [e], o) ==
      if e.SawService? then Down(e.service)
      else !e.Saved? && (e.Replaced? ==> e.after.bytes == o) && DownSince(run, o)
  {
    assert (run + [e])[..|run|] == run;
  }

  /** What settled the daemon in the later part of a run settles it in the run. */
  lemma {:induction false} SettledLater(before: seq<Event>, later: seq<Event>, o: Bytes)
    ensures DownSince(later, o) ==> DownSince(before + later, o)
    ensures AgreesSince(later, o) ==> AgreesSince(before + later, o)
    decreases |later|
  {
    hide Setting;
    if later != [] {
      var rest := later[..|later| - 1];
      SettledLater(before, rest, o);
      var run := before + later;
      assert run[|run| - 1] == later[|later| - 1] && run[..|run| - 1] == before + rest;
    }
  }

  lemma SettledSince(before: seq<Event>, later: seq<Event>, o: Bytes)
    requires Settled(later, o)
    ensures Settled(before + later, o)
  {
    SettledLater(before, later, o);
  }

  lemma WasActiveGrows(run: seq<Event>, more: seq<Event>, pid: Option<nat>)
    requires run <= more && WasActive(run, pid)
    ensures WasActive(more, pid)
  {
    var j :| 0 <= j < |run| && SawActive(run[j], pid);
    assert SawActive(more[j], pid);
  }

  lemma CleanStop(before: seq<Event>, service: Service)
    requires service.activity == Inactive && (service.success || (before != [] && SawIdle(before[|before| - 1])))
    ensures JustStopped(before + [StopIssued] + [SawService(service)] + [SawSocket(true)] + [SawShims(false)])
  {
    var run := before + [StopIssued] + [SawService(service)] + [SawSocket(true)] + [SawShims(false)];
    assert StoppedAt(run, |before|);
  }

  lemma StoppedGrows(run: seq<Event>, more: seq<Event>)
    requires run <= more && StoppedCleanly(run)
    ensures StoppedCleanly(more)
  {
    var i: nat :| StoppedAt(run, i);
    assert StoppedAt(more, i);
  }

  /** A clean stop settles the daemon for every configuration. */
  lemma StoppedIsDown(run: seq<Event>, o: Bytes)
    requires JustStopped(run)
    ensures StoppedCleanly(run) && DownSince(run, o)
  {
    var n := |run|;
    assert run == run[..n - 3] + [run[n - 3]] + [run[n - 2]] + [run[n - 1]];
    DownStep(run[..n - 3], run[n - 3], o);
    DownStep(run[..n - 3] + [run[n - 3]], run[n - 2], o);
    DownStep(run[..n - 3] + [run[n - 3]] + [run[n - 2]], run[n - 1], o);
  }

  // ----- What a crash leaves -----

  /** What stands in for the configuration while live restore is off. */
  function Standin(o: Image): Option<Entry> {
    var d := DisabledConfig(o.bytes);
    if d.Ok? then Some(Regular(Image(d.value, o.meta))) else None
  }

  /** Either nothing has happened to the configuration, or the backup holds it and recovery can tell. */
  predicate Recoverable(config: Entry, backup: Entry, original: Entry) {
    || (backup == Missing && config == original)
    || (&& original.Regular? && backup == original && |original.image.bytes| <= LIMIT
        && Standin(original.image).Some? && (config == original || Some(config) == Standin(original.image)))
  }
}
