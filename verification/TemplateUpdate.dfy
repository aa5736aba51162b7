/**
  `update` of src/runtime.rs: the VM's own template is published first and the saved
  baseline second, so that the same CLI can finish an update that was cut short.

  Every step may fail or be the last one before a crash, unless the system is `reliable`. Other
  programs put the contents in `script`, in that order, into the files and the settings, at every
  step up to the recheck.
  The log records every publication and every edit, and the files hold what the log says.
 */
module TemplateUpdate {
  import opened Outcomes
  import opened Steps

  datatype Json = Null | Flag(flag: bool) | List(items: seq<string>) | Text(text: string)

  type Template = map<string, Json>

  /** A file: a JSON object with a provision list, or anything else. */
  datatype Document = Unusable | Usable(template: Template)

  datatype Settings = Settings(fields: map<string, Json>, nested: bool)

  datatype Failure =
    | Io | NotStopped | Unreadable | SettingsDiffer | NestedDiffers | Edited | Invalid | Changed

  const PROVISION := "provision"
  const NESTED := "nestedVirtualization"
  const FIELDS: seq<string> := ["cpus", "memory", "disk", "mounts", "arch", "vmType"]

  /** Indexing a JSON object gives null for a missing key. */
  function Get(t: map<string, Json>, key: string): Json {
    if key in t then t[key] else Null
  }

  predicate HasProvision(t: Template) {
    Get(t, PROVISION).List?
  }

  /** The baseline with this CLI's provisioning. */
  function Candidate(baseline: Template, cli: seq<string>): Template {
    baseline[PROVISION := List(cli)]
  }

  predicate SettingsMatch(baseline: Template, settings: Settings) {
    && (forall f :: f in {"cpus", "memory", "disk", "mounts", "arch", "vmType"} ==>
          Get(baseline, f) == Get(settings.fields, f))
    && (Get(baseline, "nestedVirtualization") == Flag(true)) == settings.nested
  }

  lemma AllFields()
    ensures forall f :: f in {"cpus", "memory", "disk", "mounts", "arch", "vmType"} <==> f in FIELDS
    ensures PROVISION !in FIELDS
  {
  }

  /** Faults that come from the system or from the state of the VM. */
  predicate FromSystem(f: Failure) {
    f in {Io, NotStopped, Invalid}
  }

  datatype Files = Files(actual: Document, baseline: Document, settings: Settings)

  /** Another program's edit, or one published file of an update by a CLI with its own provisioning. */
  datatype Event = Outside(now: Files) | PublishedActual(cli: seq<string>) | PublishedBaseline(cli: seq<string>)

  datatype State = State(files: Files, edited: nat)

  function Renewed(d: Document, cli: seq<string>): Document {
    if d.Usable? then Usable(Candidate(d.template, cli)) else d
  }

  function Step(s: State, e: Event): State {
    match e
    case Outside(now) => State(now, s.edited + 1)
    case PublishedActual(cli) => s.(files := s.files.(actual := Renewed(s.files.baseline, cli)))
    case PublishedBaseline(cli) => s.(files := s.files.(baseline := Renewed(s.files.baseline, cli)))
  }

  function StateAfter(first: Files, log: seq<Event>): State {
    if log == [] then State(first, 0) else Step(StateAfter(first, log[..|log| - 1]), log[|log| - 1])
  }

  /** First the template, if it was the baseline, and then the baseline, if the template is its renewal. */
  predicate Allowed(s: State, e: Event, script: seq<Files>) {
    var f := s.files;
    match e
    case Outside(now) => s.edited < |script| && now == script[s.edited]
    case PublishedActual(_) =>
      f.baseline.Usable? && f.actual == f.baseline && SettingsMatch(f.baseline.template, f.settings)
    case PublishedBaseline(cli) =>
      f.baseline.Usable? && f.actual == Renewed(f.baseline, cli) && SettingsMatch(f.baseline.template, f.settings)
  }

  predicate Lawful(first: Files, script: seq<Files>, log: seq<Event>) {
    log != [] ==>
      && Lawful(first, script, log[..|log| - 1])
      && Allowed(StateAfter(first, log[..|log| - 1]), log[|log| - 1], script)
  }

  function Publications(log: seq<Event>): nat {
    if log == [] then 0 else Publications(log[..|log| - 1]) + if log[|log| - 1].Outside? then 0 else 1
  }

  lemma LogStep(first: Files, script: seq<Files>, log: seq<Event>, e: Event)
    ensures StateAfter(first, log + [e]) == Step(StateAfter(first, log), e)
    ensures Lawful(first, script, log) && Allowed(StateAfter(first, log), e, script) ==>
      Lawful(first, script, log + [e])
    ensures Publications(log + [e]) == Publications(log) + if e.Outside? then 0 else 1
  {
    hide Allowed, Step;
    assert (log + [e])[..|log|] == log;
  }

  lemma {:induction false} LawfulAt(first: Files, script: seq<Files>, log: seq<Event>, i: nat)
    requires Lawful(first, script, log) && i < |log|
    ensures Allowed(StateAfter(first, log[..i]), log[i], script)
    ensures StateAfter(first, log[..i + 1]) == Step(StateAfter(first, log[..i]), log[i])
    decreases |log|
  {
    hide Allowed, Step;
    if i < |log| - 1 {
      var p := log[..|log| - 1];
      LawfulAt(first, script, p, i);
      assert p[..i] == log[..i] && p[..i + 1] == log[..i + 1];
    } else {
      assert log[..i + 1] == log && log[..i + 1][..i] == log[..i];
    }
  }

  /**
    What a lawful history did to the two files: besides other programs' edits, a template
    changed only from the baseline to its renewal, a baseline only to the template that
    renews it, and only while the baseline matched the settings.
   */
  lemma LawfulHistory(first: Files, script: seq<Files>, log: seq<Event>, i: nat)
    requires Lawful(first, script, log) && i < |log|
    ensures var s, t := StateAfter(first, log[..i]).files, StateAfter(first, log[..i + 1]).files;
      && (log[i].Outside? ==> t in script)
      && (!log[i].Outside? ==>
            t.settings == s.settings && s.baseline.Usable? && SettingsMatch(s.baseline.template, s.settings))
      && (!log[i].Outside? && t.actual != s.actual ==>
            s.actual == s.baseline == t.baseline && t.actual == Renewed(s.baseline, log[i].cli))
      && (!log[i].Outside? && t.baseline != s.baseline ==>
            t.actual == s.actual == t.baseline == Renewed(s.baseline, log[i].cli))
      && (!log[i].Outside? && t != s ==> Provisioned(t.actual, s.baseline.template, log[i].cli))
  {
    if !log[i].Outside? && StateAfter(first, log[..i]).files.baseline.Usable? {
      CandidateIsProvisioned(StateAfter(first, log[..i]).files.baseline.template, log[i].cli);
    }
    hide Lawful, StateAfter, SettingsMatch, Candidate, Provisioned;
    LawfulAt(first, script, log, i);
  }

  /** What no publication changes: everything but the provisioning. */
  function Rest(t: Template): Template {
    t - {PROVISION}
  }

  /** Where one CLI can leave the two files that both held `b`. */
  predicate Midway(actual: Document, baseline: Document, b: Template, cli: seq<string>) {
    && actual in {Usable(b), Usable(Candidate(b, cli))} && baseline in {Usable(b), Usable(Candidate(b, cli))}
    && (baseline == Usable(Candidate(b, cli)) ==> actual == baseline)
  }

  /** Every publication in the log is by one of these CLIs. */
  ghost predicate By(log: seq<Event>, clis: set<seq<string>>) {
    forall e :: e in log && !e.Outside? ==> e.cli in clis
  }

  lemma ByMore(log: seq<Event>, clis: set<seq<string>>, cli: seq<string>)
    requires By(log, clis)
    ensures By(log, clis + {cli})
  {
  }

  lemma ByStep(log: seq<Event>, e: Event, clis: set<seq<string>>)
    requires By(log, clis) && (e.Outside? || e.cli in clis)
    ensures By(log + [e], clis)
  {
  }

  /** The file has this CLI's provisioning, and all else from the baseline. */
  ghost predicate Provisioned(file: Document, baseline: Template, cli: seq<string>) {
    && file.Usable? && Get(file.template, "provision") == List(cli)
    && forall key :: key != "provision" ==>
         (key in file.template <==> key in baseline)
         && (key in baseline ==> file.template[key] == baseline[key])
  }

  lemma CandidateIsProvisioned(b: Template, cli: seq<string>)
    ensures Provisioned(Usable(Candidate(b, cli)), b, cli)
  {
  }

  lemma CandidateOfCandidate(b: Template, one: seq<string>, other: seq<string>)
    ensures Candidate(Candidate(b, one), other) == Candidate(b, other)
    ensures Rest(Candidate(b, one)) == Rest(b) && HasProvision(Candidate(b, one))
  {
    assert forall k :: k in Rest(Candidate(b, one)) <==> k in Rest(b);
  }

  /** A run leaves both files alone, or takes the steps towards its candidate. */
  predicate Stepped(actual: Document, baseline: Document, actual1: Document, baseline1: Document, cli: seq<string>) {
    || (actual1 == actual && baseline1 == baseline)
    || (&& baseline.Usable? && actual in {baseline, Usable(Candidate(baseline.template, cli))}
        && actual1 == Usable(Candidate(baseline.template, cli)) && baseline1 in {baseline, actual1})
  }

  /** Nothing stands in the way of an update but the system. */
  predicate Ready(actual: Document, baseline: Document, settings: Settings, cli: seq<string>) {
    && baseline.Usable? && HasProvision(baseline.template) && SettingsMatch(baseline.template, settings)
    && actual in {baseline, Usable(Candidate(baseline.template, cli))}
  }

  predicate IsUpdated(actual: Document, baseline: Document, cli: seq<string>) {
    baseline.Usable? && actual == baseline == Usable(Candidate(baseline.template, cli))
  }

  predicate WasEdited(actual: Document, baseline: Document, cli: seq<string>) {
    baseline.Usable? && actual !in {baseline, Usable(Candidate(baseline.template, cli))}
  }

  /** What an update found: the template, the baseline and the settings. */
  datatype Plan = Plan(a: Template, b: Template, settings: Settings)

  lemma ReadyAgain(actual: Document, baseline: Document, settings: Settings, cli: seq<string>)
    requires Ready(actual, baseline, settings, cli)
    ensures HasProvision(actual.template) && HasProvision(baseline.template)
    ensures SettingsMatch(baseline.template, settings)
  {
  }

  class Machine {
    /** What other programs write; with an empty script nobody else edits. */
    const script: seq<Files>
    ghost const first: Files
    var actual: Document
    var baseline: Document
    var settings: Settings
    var edited: nat
    /** Nothing is killed, no request fails, the VM is stopped and its template is valid. */
    var reliable: bool
    ghost var log: seq<Event>
    /** The CLIs that have run. */
    ghost var clis: set<seq<string>>

    /** The files hold what the log says, and every publication was allowed. */
    ghost predicate Valid()
      reads this
    {
      && Lawful(first, script, log) && By(log, clis) && edited <= |script|
      && StateAfter(first, log) == State(Files(actual, baseline, settings), edited)
    }

    constructor (script: seq<Files>, files: Files)
      ensures Valid() && this.script == script && this.first == files && log == [] && clis == {}
      ensures actual == files.actual && baseline == files.baseline && settings == files.settings
    {
      this.script, this.first := script, files;
      this.actual, this.baseline, this.settings, this.edited := files.actual, files.baseline, files.settings, 0;
      this.reliable, this.log, this.clis := false, [], {};
    }

    ghost predicate Still(actual0: Document, baseline0: Document, settings0: Settings, log0: seq<Event>)
      reads this
    {
      actual == actual0 && baseline == baseline0 && settings == settings0 && log == log0
    }

    /** Records an event whose effect on the files has just happened. */
    ghost method Note(e: Event)
      requires Lawful(first, script, log) && Allowed(StateAfter(first, log), e, script) && edited <= |script|
      requires By(log, clis) && (e.Outside? || e.cli in clis)
      requires Step(StateAfter(first, log), e) == State(Files(actual, baseline, settings), edited)
      modifies this`log
      ensures Valid() && log == old(log) + [e]
      ensures Publications(log) == Publications(old(log)) + if e.Outside? then 0 else 1
    {
      hide Lawful, StateAfter, Publications, Allowed, By;
      LogStep(first, script, log, e);
      ByStep(log, e, clis);
      log := log + [e];
    }

    method Ask() returns (r: Outcome<(), Failure>)
      requires Valid()
      modifies this`actual, this`baseline, this`settings, this`edited, this`log
      ensures Valid() && old(log) <= log && Publications(log) == Publications(old(log))
      ensures script == [] ==> Still(old(actual), old(baseline), old(settings), old(log))
      ensures r.Fault? ==> r.error == Io
      ensures reliable ==> r.Done?
    {
      hide Lawful, StateAfter, Publications, By;
      var more: nat :| edited + more <= |script|;
      for k := 0 to more
        invariant Valid() && old(log) <= log && Publications(log) == Publications(old(log)) && edited == old(edited) + k
        invariant script == [] ==> Still(old(actual), old(baseline), old(settings), old(log))
      {
        var now := script[edited];
        actual, baseline, settings, edited := now.actual, now.baseline, now.settings, edited + 1;
        Note(Outside(now));
      }
      if reliable {
        return Done(());
      }
      if * {
        return Killed;
      }
      if * {
        return Fault(Io);
      }
      return Done(());
    }

    method RequireStopped() returns (r: Outcome<(), Failure>)
      requires Valid()
      modifies this`actual, this`baseline, this`settings, this`edited, this`log
      ensures Valid() && old(log) <= log && Publications(log) == Publications(old(log))
      ensures script == [] ==> Still(old(actual), old(baseline), old(settings), old(log))
      ensures r.Fault? ==> FromSystem(r.error)
      ensures reliable ==> r.Done?
    {
      hide Lawful, StateAfter, Publications, By;
      var _ :- Ask();
      var stopped: bool := *;
      return if stopped || reliable then Done(()) else Fault(NotStopped);
    }

    method Read(saved: bool) returns (r: Outcome<Template, Failure>)
      requires Valid()
      modifies this`actual, this`baseline, this`settings, this`edited, this`log
      ensures Valid() && old(log) <= log && Publications(log) == Publications(old(log))
      ensures script == [] ==> Still(old(actual), old(baseline), old(settings), old(log))
      ensures r.Done? ==> HasProvision(r.value) && (if saved then baseline else actual) == Usable(r.value)
      ensures r.Fault? ==>
        var file := if saved then baseline else actual;
        r.error == Io || (r.error == Unreadable && !(file.Usable? && HasProvision(file.template)))
      ensures reliable ==> !r.Killed? && r != Fault(Io)
    {
      hide Lawful, StateAfter, Publications, By;
      var _ :- Ask();
      var file := if saved then baseline else actual;
      if !file.Usable? || !HasProvision(file.template) {
        return Fault(Unreadable);
      }
      return Done(file.template);
    }

    method CheckSettings(template: Template, settings: Settings) returns (r: Result<(), Failure>)
      ensures r.Ok? <==> SettingsMatch(template, settings)
      ensures r.Err? ==> r.error in {SettingsDiffer, NestedDiffers}
    {
      AllFields();
      for k := 0 to |FIELDS|
        invariant forall f :: f in FIELDS[..k] ==> Get(template, f) == Get(settings.fields, f)
      {
        if Get(template, FIELDS[k]) != Get(settings.fields, FIELDS[k]) {
          return Err(SettingsDiffer);
        }
      }
      assert FIELDS[..|FIELDS|] == FIELDS;
      if (Get(template, NESTED) == Flag(true)) != settings.nested {
        return Err(NestedDiffers);
      }
      return Ok(());
    }

    /**
      `atomic_write` of the candidate: the file is replaced whole, and a failure after that still
      leaves it replaced.
     */
    method Publish(c: Template, b: Template, cli: seq<string>, saved: bool) returns (r: Outcome<(), Failure>)
      requires Valid() && c == Candidate(b, cli) && SettingsMatch(b, settings) && cli in clis
      requires baseline == Usable(b) && actual == Usable(if saved then c else b)
      modifies this`actual, this`baseline, this`log
      ensures Valid() && old(log) <= log
      ensures Publications(log) == Publications(old(log)) + if log == old(log) then 0 else 1
      ensures r.Done? ==> log != old(log)
      ensures log == old(log) ==> actual == old(actual) && baseline == old(baseline)
      ensures log != old(log) ==> actual == Usable(c) && baseline == if saved then Usable(c) else old(baseline)
      ensures r.Fault? ==> r.error == Io
      ensures reliable ==> r.Done?
    {
      hide Lawful, StateAfter, Publications, By, SettingsMatch, Candidate;
      if !reliable {
        if * {
          return Killed;
        }
        if * {
          return Fault(Io);
        }
      }
      if saved {
        baseline := Usable(c);
        Note(PublishedBaseline(cli));
      } else {
        actual := Usable(c);
        Note(PublishedActual(cli));
      }
      if !reliable {
        if * {
          return Killed;
        }
        if * {
          return Fault(Io);
        }
      }
      return Done(());
    }

    method PublishBoth(a: Template, b: Template, c: Template, cli: seq<string>) returns (r: Outcome<(), Failure>)
      requires Valid() && c == Candidate(b, cli) && SettingsMatch(b, settings) && cli in clis
      requires a in {b, c} && (a != c || b != c)
      requires actual == Usable(a) && baseline == Usable(b)
      modifies this`actual, this`baseline, this`log
      ensures Valid() && old(log) <= log
      ensures r.Done? ==> Publications(log) > Publications(old(log)) && actual == baseline == Usable(c)
      ensures log == old(log) ==> actual == old(actual) && baseline == old(baseline)
      ensures log != old(log) ==> actual == Usable(c) && baseline in {Usable(b), Usable(c)}
      ensures r.Fault? ==> r.error == Io
      ensures reliable ==> r.Done?
    {
      hide Lawful, StateAfter, Publications, By, SettingsMatch, Candidate;
      if a != c {
        var _ :- Publish(c, b, cli, false);
      }
      if b != c {
        var _ :- Publish(c, b, cli, true);
      }
      return Done(());
    }

    /** The first part of `update`: reads and checks. */
    method Inspect(cli: seq<string>) returns (r: Outcome<Plan, Failure>)
      requires Valid()
      modifies this`actual, this`baseline, this`settings, this`edited, this`log
      ensures Valid() && old(log) <= log && Publications(log) == Publications(old(log))
      ensures script == [] ==> Still(old(actual), old(baseline), old(settings), old(log))
      ensures r.Done? ==>
        && SettingsMatch(r.value.b, r.value.settings) && r.value.a in {r.value.b, Candidate(r.value.b, cli)}
        && (script == [] ==>
              actual == Usable(r.value.a) && baseline == Usable(r.value.b) && settings == r.value.settings)
      ensures script == [] && r.Fault? && Ready(actual, baseline, settings, cli) ==> FromSystem(r.error)
      ensures script == [] && r.Done? ==> Ready(actual, baseline, settings, cli)
      ensures reliable ==> !r.Killed? && (r.Fault? ==> !FromSystem(r.error))
    {
      hide SettingsMatch, Candidate, HasProvision, Lawful, StateAfter, Publications, By, Provisioned;
      if Ready(actual, baseline, settings, cli) {
        ReadyAgain(actual, baseline, settings, cli);
      }
      var _ :- RequireStopped();
      var _ :- Ask();
      var read := settings;
      var b :- Read(true);
      var a :- Read(false);
      var checked := CheckSettings(b, read);
      if checked.Err? {
        return Fault(checked.error);
      }
      if a != b && a != Candidate(b, cli) {
        return Fault(Edited);
      }
      return Done(Plan(a, b, read));
    }

    /** `update` by a CLI with its own provisioning; only a fault of the system can come after a publication. */
    method Update(cli: seq<string>) returns (r: Outcome<bool, Failure>)
      requires Valid()
      modifies this`actual, this`baseline, this`settings, this`edited, this`log, this`clis
      ensures Valid() && old(log) <= log && clis == old(clis) + {cli}
      ensures r == Done(true) ==> Publications(log) > Publications(old(log)) && IsUpdated(actual, baseline, cli)
      ensures r == Done(false) || (r.Fault? && r.error != Io) ==> Publications(log) == Publications(old(log))
      ensures script == [] && r.Done? ==> IsUpdated(actual, baseline, cli)
      ensures script == [] ==> settings == old(settings) && Stepped(old(actual), old(baseline), actual, baseline, cli)
      ensures script == [] && WasEdited(old(actual), old(baseline), cli) ==>
        !r.Done? && Still(old(actual), old(baseline), old(settings), old(log))
      ensures script == [] && r.Done? ==> (r.value <==> actual != old(actual) || baseline != old(baseline))
      ensures script == [] && r.Fault? && Ready(old(actual), old(baseline), old(settings), cli) ==> FromSystem(r.error)
      ensures script == [] && r.Done? ==> Ready(old(actual), old(baseline), old(settings), cli)
      ensures script == [] && r.Done? ==>
        && old(baseline).Usable? && actual == baseline
        && Provisioned(actual, old(baseline).template, cli)
      ensures script == [] && reliable ==> (r.Done? <==> Ready(old(actual), old(baseline), old(settings), cli))
      ensures reliable ==> !r.Killed? && (r.Fault? ==> !FromSystem(r.error))
    {
      hide SettingsMatch, Candidate, HasProvision, Lawful, StateAfter, Publications, By, Provisioned;
      ByMore(log, clis, cli);
      clis := clis + {cli};
      var plan :- Inspect(cli);
      var a, b, c := plan.a, plan.b, Candidate(plan.b, cli);
      CandidateIsProvisioned(b, cli);
      if a == c && b == c {
        return Done(false);
      }
      // The candidate is staged beside the template and validated.
      var _ :- Ask();
      var valid: bool := *;
      if !valid && !reliable {
        return Fault(Invalid);
      }
      var _ :- Ask();
      if actual != Usable(a) || baseline != Usable(b) || settings != plan.settings {
        return Fault(Changed);
      }
      var stopped: bool := *;
      if !stopped && !reliable {
        return Fault(NotStopped);
      }
      CandidateOfCandidate(b, cli, cli);
      var _ :- PublishBoth(a, b, c, cli);
      return Done(true);
    }
  }

  lemma SettingsMatchCandidate(b: Template, cli: seq<string>, settings: Settings)
    ensures SettingsMatch(Candidate(b, cli), settings) == SettingsMatch(b, settings)
  {
    assert PROVISION !in {"cpus", "memory", "disk", "mounts", "arch", "vmType"} && NESTED != PROVISION;
  }

  lemma MidwayStep(a: Document, d: Document, a1: Document, d1: Document, b: Template, cli: seq<string>)
    requires Midway(a, d, b, cli) && Stepped(a, d, a1, d1, cli)
    ensures Midway(a1, d1, b, cli)
  {
    CandidateOfCandidate(b, cli, cli);
  }

  lemma MidwayReady(a: Document, d: Document, b: Template, cli: seq<string>, settings: Settings)
    requires Midway(a, d, b, cli) && HasProvision(b) && SettingsMatch(b, settings)
    ensures Ready(a, d, settings, cli)
  {
    CandidateOfCandidate(b, cli, cli);
    SettingsMatchCandidate(b, cli, settings);
  }

  /**
    Any number of runs of one CLI, each failing or crashing anywhere, without edits: the two files
    are always midway, and only the system can stop the next run. One run that the system lets
    through then updates both files, and the run after that has nothing to write.
   */
  method SameCli(template: Template, settings: Settings, cli: seq<string>, runs: nat)
      returns (actual: Document, baseline: Document, last: Outcome<bool, Failure>,
               actual1: Document, baseline1: Document, finish: Outcome<bool, Failure>, again: Outcome<bool, Failure>)
    requires HasProvision(template) && SettingsMatch(template, settings)
    ensures Midway(actual, baseline, template, cli)
    ensures last.Fault? ==> FromSystem(last.error)
    ensures finish.Done? && actual1 == baseline1 == Usable(Candidate(template, cli))
    ensures Provisioned(actual1, template, cli)
    ensures finish.value <==> actual != actual1 || baseline != baseline1
    ensures again == Done(false)
  {
    hide SettingsMatch, HasProvision;
    var m := new Machine([], Files(Usable(template), Usable(template), settings));
    last := Done(false);
    for run := 0 to runs
      invariant fresh(m) && m.Valid() && m.script == [] && m.settings == settings
      invariant Midway(m.actual, m.baseline, template, cli)
      invariant last.Fault? ==> FromSystem(last.error)
    {
      MidwayReady(m.actual, m.baseline, template, cli, settings);
      ghost var a, d := m.actual, m.baseline;
      m.reliable := *;
      last := m.Update(cli);
      MidwayStep(a, d, m.actual, m.baseline, template, cli);
    }
    actual, baseline := m.actual, m.baseline;
    MidwayReady(actual, baseline, template, cli, settings);
    CandidateOfCandidate(template, cli, cli);
    CandidateIsProvisioned(template, cli);
    m.reliable := true;
    finish := m.Update(cli);
    actual1, baseline1 := m.actual, m.baseline;
    MidwayStep(actual, baseline, actual1, baseline1, template, cli);
    MidwayReady(actual1, baseline1, template, cli, settings);
    again := m.Update(cli);
  }

  /** Any runs of any CLIs, without edits: everything but the provisioning stays as it was, in both files. */
  method AnyClis(template: Template, settings: Settings, clis: seq<seq<string>>)
      returns (actual: Document, baseline: Document)
    requires HasProvision(template)
    ensures actual.Usable? && baseline.Usable?
    ensures Rest(actual.template) == Rest(baseline.template) == Rest(template)
    ensures HasProvision(actual.template) && HasProvision(baseline.template)
  {
    var m := new Machine([], Files(Usable(template), Usable(template), settings));
    for run := 0 to |clis|
      invariant fresh(m) && m.Valid() && m.script == [] && m.actual.Usable? && m.baseline.Usable?
      invariant Rest(m.actual.template) == Rest(m.baseline.template) == Rest(template)
      invariant HasProvision(m.actual.template) && HasProvision(m.baseline.template)
    {
      CandidateOfCandidate(m.baseline.template, clis[run], clis[run]);
      hide Rest, HasProvision, Candidate, SettingsMatch;
      m.reliable := *;
      var _ := m.Update(clis[run]);
    }
    return m.actual, m.baseline;
  }

  /**
    Any runs of any CLIs, each failing or crashing anywhere, while other programs edit the files:
    whatever happened is lawful, and the files are what the edits and publications made them.
   */
  method AnyRuns(files: Files, script: seq<Files>, clis: seq<seq<string>>) returns (after: Files, ghost log: seq<Event>)
    ensures Lawful(files, script, log) && StateAfter(files, log).files == after
    ensures By(log, set cli | cli in clis)
  {
    hide Lawful, StateAfter, Publications;
    var m := new Machine(script, files);
    for run := 0 to |clis|
      invariant fresh(m) && m.Valid() && m.script == script && m.first == files
      invariant m.clis <= set cli | cli in clis
    {
      m.reliable := *;
      var _ := m.Update(clis[run]);
    }
    after, log := Files(m.actual, m.baseline, m.settings), m.log;
  }
}
