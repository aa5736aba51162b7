/**
  Why a run of the shutdown helper of guest/docker-shutdown.rs fails when the system lets
  everything through and nobody else edits: what Docker and its daemon were seen to do, where
  the helper asks for it.
 */
module ShutdownCauses {
  import opened Outcomes
  import opened Utf8
  import opened DockerConfig
  import opened ConfigEditor
  import opened ShutdownLog

  datatype Failure =
    | Io
    | Unreadable
    | Config(error: ConfigError)
    | ExternalEdit
    | TooManyTemporaries
    | NotActiveEnough
    | NotConfirmed
    | Transitioning
    | Busy
    | ChangedDuringPreparation
    | NotStopped
    | StopFailed
    | ShimsRemain

  /** Faults that come from the system, not from the state of the two files. */
  predicate FromSystem(f: Failure) {
    f in {Io, TooManyTemporaries, NotActiveEnough, NotConfirmed, Transitioning}
  }

  /** Faults that come from what Docker does. */
  predicate FromDocker(f: Failure) {
    f in {Busy, ChangedDuringPreparation, NotStopped, StopFailed, ShimsRemain}
  }

  /** Faults of the file itself. */
  predicate Unusable(f: Failure, original: Entry) {
    || (f == Unreadable && !(original.Regular? && |original.image.bytes| <= LIMIT))
    || (f.Config? && original.Regular? && DisabledConfig(original.image.bytes) == Err(f.error))
  }

  /** With nobody else editing, a run fails for no other reason. */
  predicate Justified(f: Failure, original: Entry) {
    FromSystem(f) || FromDocker(f) || Unusable(f, original)
  }

  // ----- Where the helper is -----

  /** The backup was saved and the file was put in its place: live restore is about to go off. */
  predicate JustEdited(run: seq<Event>) {
    var n := |run|;
    n > 2 && run[n - 3].Saved? && run[n - 2].SawConfig? && run[n - 1].Replaced?
  }

  /** The setting that a reload at the end of this run asks for; none when no reload is due. */
  function Target(run: seq<Event>): Option<bool> {
    var n := |run|;
    if n > 0 && run[n - 1].SawService? && run[n - 1].service.activity == Active then
      if LastConfig(run).Some? then Some(Setting(LastConfig(run).value)) else None
    else if JustEdited(run) then
      Some(false)
    else
      None
  }

  /** A running service was found, its file was read and the daemon was asked: the stop is being prepared. */
  predicate PreparedAt(run: seq<Event>, j: nat) {
    j + 2 < |run| && run[j].SawService? && run[j].service.activity == Active
    && run[j + 1].SawConfig? && run[j + 2].SawLiveRestore?
  }

  predicate Prepared(run: seq<Event>) {
    exists j: nat | j < |run| :: PreparedAt(run, j)
  }

  predicate PreparedFor(run: seq<Event>, pid: Option<nat>) {
    exists j: nat | j < |run| :: PreparedAt(run, j) && run[j].service.pid == pid
  }

  // ----- Causes -----

  predicate ActiveEnough(s: Service) {
    s.activity == Active && s.pid.Some? && s.pid.value > 1
  }

  /** The daemon was asked to reload, and has only been seen not to follow. */
  predicate Unconfirmed(run: seq<Event>, expected: bool) {
    && run != []
    && var e := run[|run| - 1];
       var before := run[..|run| - 1];
       if e.SawLiveRestore? then e.enabled != expected && Unconfirmed(before, expected)
       else e.SawService? && ActiveEnough(e.service) && Target(before) == Some(expected)
  }

  predicate WasBusy(run: seq<Event>) {
    var n := |run|;
    n > 0 && run[n - 1].SawService? && run[n - 1].service.activity == Other && (n == 1 || run[n - 2].Removed?)
  }

  /** In a recovery, with the file back, the service is neither running nor down. */
  predicate WasTransitioning(run: seq<Event>) {
    var n := |run|;
    && n > 1 && run[n - 1].SawService? && run[n - 1].service.activity != Active && !Idle(run[n - 1].service)
    && (run[n - 2].SawConfig? || run[n - 2].Replaced?) && !Prepared(run)
  }

  predicate Idle(s: Service) {
    s.activity in {Inactive, Failed} && s.pid == Some(0)
  }

  /** A reload was due, and the service was not active enough for it. */
  predicate WasNotActiveEnough(run: seq<Event>) {
    var n := |run|;
    n > 0 && run[n - 1].SawService? && !ActiveEnough(run[n - 1].service) && Target(run[..n - 1]).Some?
  }

  predicate WasNotConfirmed(run: seq<Event>) {
    run != [] && run[|run| - 1].SawLiveRestore? && (Unconfirmed(run, true) || Unconfirmed(run, false))
  }

  /** The last look before the stop saw live restore on, or another process than the preparation. */
  predicate HasChanged(run: seq<Event>) {
    var n := |run|;
    || (&& n > 1 && run[n - 1] == SawLiveRestore(true) && run[n - 2].SawService?
        && Target(run[..n - 2]).None? && Prepared(run[..n - 2]))
    || (&& n > 1 && run[n - 1].SawService? && !run[n - 2].StopIssued? && Target(run[..n - 1]).None?
        && PreparedForAnother(run[..n - 1], run[n - 1].service.pid))
  }

  predicate PreparedForAnother(run: seq<Event>, pid: Option<nat>) {
    exists j: nat | j < |run| :: PreparedAt(run, j) && run[j].service.pid != pid
  }

  predicate HasNotStopped(run: seq<Event>) {
    var n := |run|;
    && n > 2 && run[n - 3].StopIssued? && run[n - 2].SawService? && run[n - 1].SawSocket?
    && (run[n - 2].service.activity != Inactive || !run[n - 1].inactive)
  }

  predicate StopHasFailed(run: seq<Event>) {
    var n := |run|;
    && n > 2 && run[n - 3].StopIssued? && run[n - 2].SawService? && !run[n - 2].service.success
    && !(n > 3 && SawIdle(run[n - 4]))
  }

  /** The last events of a run that fails because of what Docker or its daemon did. */
  predicate Cause(f: Failure, run: seq<Event>) {
    match f
    case Busy => WasBusy(run)
    case Transitioning => WasTransitioning(run)
    case NotActiveEnough => WasNotActiveEnough(run)
    case NotConfirmed => WasNotConfirmed(run)
    case ChangedDuringPreparation => HasChanged(run)
    case NotStopped => HasNotStopped(run)
    case StopFailed => StopHasFailed(run)
    case ShimsRemain => run != [] && run[|run| - 1] == SawShims(true)
    case _ => false
  }

  /** The cause is among what the run saw; the daemon was not asked once more after that. */
  ghost predicate Shown(f: Failure, run: seq<Event>) {
    exists n: nat :: n <= |run| && Cause(f, run[..n]) && (n == |run| || !run[n].SawLiveRestore?)
  }

  ghost predicate Blocked(run: seq<Event>) {
    exists f :: Shown(f, run)
  }

  lemma CauseIsShown(f: Failure, run: seq<Event>)
    requires Cause(f, run)
    ensures Shown(f, run) && Blocked(run)
  {
    assert run[..|run|] == run;
  }

  lemma ShownGrows(f: Failure, run: seq<Event>, more: seq<Event>)
    requires Shown(f, run) && run <= more && (|more| == |run| || !more[|run|].SawLiveRestore?)
    ensures Shown(f, more) && Blocked(more)
  {
    hide Cause;
    var n: nat :| n <= |run| && Cause(f, run[..n]) && (n == |run| || !run[n].SawLiveRestore?);
    assert more[..n] == run[..n];
    assert n == |more| || !more[n].SawLiveRestore?;
  }

  lemma UnconfirmedStep(run: seq<Event>, x: bool, expected: bool)
    requires Unconfirmed(run, expected) && x != expected
    ensures Unconfirmed(run + [SawLiveRestore(x)], expected)
  {
    assert (run + [SawLiveRestore(x)])[..|run|] == run;
  }

  lemma UnconfirmedCause(run: seq<Event>, expected: bool)
    requires Unconfirmed(run, expected) && run[|run| - 1].SawLiveRestore?
    ensures Cause(NotConfirmed, run)
  {
  }

  lemma ReloadCause(run: seq<Event>, service: Service, expected: bool)
    requires Target(run) == Some(expected)
    ensures var more := run + [SawService(service)];
            if ActiveEnough(service) then Unconfirmed(more, expected) else Cause(NotActiveEnough, more)
  {
    assert (run + [SawService(service)])[..|run|] == run;
  }

  lemma BusyCause(run: seq<Event>, service: Service)
    requires service.activity == Other && (run == [] || run[|run| - 1].Removed?)
    ensures Cause(Busy, run + [SawService(service)])
  {
  }

  lemma TransitionCause(run: seq<Event>, service: Service)
    requires run != [] && OfFile(run)
    ensures service.activity != Active && !Idle(service) ==> Cause(Transitioning, run + [SawService(service)])
  {
    var more := run + [SawService(service)];
    assert forall j :: 0 <= j < |run| ==> more[j] == run[j];
  }

  lemma ChangeCause(run: seq<Event>, pid: Option<nat>, now: Service)
    requires Target(run).None? && PreparedFor(run, pid) && !run[|run| - 1].StopIssued?
    ensures var more := run + [SawService(now)];
            && (now.pid != pid ==> Cause(ChangedDuringPreparation, more))
            && Cause(ChangedDuringPreparation, more + [SawLiveRestore(true)])
  {
    var more := run + [SawService(now)];
    assert more[..|run|] == run && (more + [SawLiveRestore(true)])[..|run|] == run;
    var j: nat :| j < |run| && PreparedAt(run, j) && run[j].service.pid == pid;
  }

  lemma StopCause(run: seq<Event>, stopped: Service, inactive: bool)
    requires |run| > 1 && run[|run| - 1] == SawService(stopped) && run[|run| - 2] == StopIssued
    ensures var more := run + [SawSocket(inactive)];
            && (stopped.activity != Inactive || !inactive ==> Cause(NotStopped, more))
            && (!stopped.success && !(|run| > 2 && SawIdle(run[|run| - 3])) ==> Cause(StopFailed, more))
            && Cause(ShimsRemain, more + [SawShims(true)])
  {
  }

  // ----- Preparing -----

  /** The first two questions of the preparation. */
  lemma PreparationStarts(run: seq<Event>, service: Service, bytes: Bytes, enabled: bool)
    requires run != [] && run[|run| - 1] == SawService(service) && service.activity == Active
    ensures PreparedFor(run + [SawConfig(bytes)] + [SawLiveRestore(enabled)], service.pid)
  {
    var more := run + [SawConfig(bytes)] + [SawLiveRestore(enabled)];
    assert PreparedAt(more, |run| - 1);
  }

  lemma WasActiveNow(run: seq<Event>, service: Service)
    requires run != [] && run[|run| - 1] == SawService(service) && service.activity == Active
    ensures WasActive(run, service.pid)
  {
    assert SawActive(run[|run| - 1], service.pid);
  }

  lemma NoTarget(run: seq<Event>, enabled: bool)
    ensures Target(run + [SawLiveRestore(enabled)]).None?
  {
  }

  lemma PreparedGrows(run: seq<Event>, more: seq<Event>, pid: Option<nat>)
    requires PreparedFor(run, pid) && run <= more
    ensures PreparedFor(more, pid)
  {
    var j: nat :| j < |run| && PreparedAt(run, j) && run[j].service.pid == pid;
    assert PreparedAt(more, j);
  }

  // ----- Settling -----

  /** Readings and replacements of the file, and nothing else. */
  predicate OfFile(events: seq<Event>) {
    forall j :: 0 <= j < |events| ==> events[j].SawConfig? || events[j].Replaced?
  }

  /** What was seen of the daemon, and nothing else. */
  predicate OfDaemon(events: seq<Event>) {
    forall j :: 0 <= j < |events| ==> events[j].SawService? || events[j].SawLiveRestore?
  }

  /** What is seen of the daemon does not change what was seen of the file. */
  lemma {:induction false} SeenOfDaemon(before: seq<Event>, seen: seq<Event>)
    ensures seen == [] || (|seen| == 1 && seen[0].SawService?) ==> OfDaemon(seen)
    ensures OfDaemon(seen) ==> LastConfig(before + seen) == LastConfig(before)
    decreases |seen|
  {
    if seen == [] {
      assert before + seen == before;
    } else if OfDaemon(seen) {
      var n := |seen| - 1;
      SeenOfDaemon(before, seen[..n]);
      assert before + seen == before + seen[..n] + [seen[n]];
      LastConfigStep(before + seen[..n], seen[n]);
    }
  }

  lemma OneLook(before: seq<Event>, service: Service, reload: seq<Event>)
    requires OfDaemon(reload)
    ensures before + [SawService(service)] + reload == before + ([SawService(service)] + reload)
    ensures OfDaemon([SawService(service)] + reload)
  {
  }

  /** What happened after the file was last read or replaced. */
  function AfterFile(run: seq<Event>): seq<Event> {
    if run == [] then []
    else
      var e := run[|run| - 1];
      if e.SawConfig? || e.Replaced? then [] else AfterFile(run[..|run| - 1]) + [e]
  }

  /** The service was idle, or the daemon followed `o`. */
  predicate Settles(events: seq<Event>, o: Bytes) {
    && events != [] && events[0].SawService?
    && if events[0].service.activity == Active then SawLiveRestore(Setting(o)) in events else Idle(events[0].service)
  }

  /** Whether a look at the service and a reload after it settle the daemon. */
  lemma SettlesBy(service: Service, reload: seq<Event>, o: Bytes)
    ensures Settles([SawService(service)] + reload, o) <==>
      if service.activity == Active then SawLiveRestore(Setting(o)) in reload else Idle(service)
  {
    hide Setting;
  }

  lemma SettledBy(service: Service, reload: seq<Event>, o: Bytes)
    ensures Idle(service) && reload == [] ==> Settled([SawService(service)] + reload, o)
    ensures reload != [] && reload[|reload| - 1] == SawLiveRestore(Setting(o)) ==>
      Settled([SawService(service)] + reload, o)
  {
    hide Setting;
    var run := [SawService(service)] + reload;
    assert reload != [] ==> run[|run| - 1] == reload[|reload| - 1];
  }

  lemma SettingIs(o: Bytes, value: Option<bool>)
    requires BooleanField(o, LIVE_RESTORE) == Ok(value)
    ensures Setting(o) <==> value == Some(true)
  {
    hide BooleanField;
  }

  /** A running service was looked at, so a reload would ask for what the file says. */
  lemma TargetHere(run: seq<Event>, service: Service)
    requires service.activity == Active
    ensures LastConfig(run).Some? ==> Target(run + [SawService(service)]) == Some(Setting(LastConfig(run).value))
  {
    hide Setting;
    LastConfigStep(run, SawService(service));
  }

  lemma {:induction false} AfterFileIs(run: seq<Event>, events: seq<Event>)
    requires run != [] && (run[|run| - 1].SawConfig? || run[|run| - 1].Replaced?) && OfDaemon(events)
    ensures AfterFile(run + events) == events
    decreases |events|
  {
    if events == [] {
      assert run + events == run;
    } else {
      var n := |events| - 1;
      AfterFileIs(run, events[..n]);
      assert (run + events)[..|run| + n] == run + events[..n];
      assert events == events[..n] + [events[n]];
    }
  }

  lemma SettlesStill(run: seq<Event>, o: Bytes)
    ensures Settles(AfterFile(run), o) ==> Settles(AfterFile(run + [Removed]), o)
  {
    assert (run + [Removed])[..|run|] == run;
  }

  /** After a fault of the preparation or the stop, the daemon did not settle either. */
  predicate Unsettled(f: Failure, run: seq<Event>, original: Entry) {
    && f in {NotActiveEnough, NotConfirmed, Transitioning}
    && original.Regular? && !Settles(AfterFile(run), original.image.bytes)
  }

  // ----- The stop -----

  /** The stop was issued once, at `at`, or not at all. */
  predicate StopsAt(run: seq<Event>, at: Option<nat>) {
    forall j :: 0 <= j < |run| ==> (run[j].StopIssued? <==> at == Some(j))
  }

  /** An event that leaves, or makes, `at` the place of the stop. */
  predicate StopsAfter(run: seq<Event>, at: Option<nat>, e: Event) {
    if e.Began? then at == None
    else if e.StopIssued? then StopsAt(run, None) && at == Some(|run|)
    else StopsAt(run, at) && (at.Some? ==> at.value < |run|)
  }

  lemma StopsStep(s: State, at: Option<nat>, e: Event)
    requires StopsAfter(s.run, at, e)
    ensures StopsAt(Step(s, e).run, at) && (at.Some? ==> at.value < |Step(s, e).run|)
  {
  }

  /** The stop at `i` was not a clean one. */
  predicate FailedAt(run: seq<Event>, i: nat) {
    && i + 2 < |run| && run[i].StopIssued? && run[i + 1].SawService? && run[i + 2].SawSocket?
    && (|| run[i + 1].service.activity != Inactive || !run[i + 2].inactive
        || !(run[i + 1].service.success || (i > 0 && SawIdle(run[i - 1])))
        || (i + 3 < |run| && run[i + 3] == SawShims(true)))
  }

  lemma FailedGrows(run: seq<Event>, more: seq<Event>, i: nat)
    requires FailedAt(run, i) && run <= more
    ensures FailedAt(more, i)
  {
  }

  /** A stop that was not clean, or none, is no clean stop. */
  lemma NotClean(run: seq<Event>, at: Option<nat>)
    requires StopsAt(run, at) && (at.Some? ==> FailedAt(run, at.value))
    ensures !StoppedCleanly(run)
  {
    forall i: nat ensures !StoppedAt(run, i) {
    }
  }

  lemma StopFailsAt(run: seq<Event>, stopped: Service, inactive: bool)
    requires |run| > 1 && run[|run| - 1] == SawService(stopped) && run[|run| - 2] == StopIssued
    ensures var more := run + [SawSocket(inactive)];
            var i: nat := |run| - 2;
            && (stopped.activity != Inactive || !inactive ==> FailedAt(more, i))
            && (!stopped.success && !(i > 0 && SawIdle(run[i - 1])) ==> FailedAt(more, i))
            && FailedAt(more + [SawShims(true)], i)
  {
  }
}
