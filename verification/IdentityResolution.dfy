/** Choosing the modem to read from and the modem to act on, and watching their identities. */
module IdentityResolution {
  import opened Wrappers
  import opened ModemIdentity
  import opened ModemChoice

  /** What the modems answer during a resolution: the configured one, those that are listed,
      and the namespace that is made up if there is nothing to go by. */
  datatype Answers = Answers(configured: Option<Fingerprint>, listed: seq<Sighting>, local: Fingerprint)

  function AsRead(listed: seq<Sighting>): seq<Sighting> {
    seq(|listed|, i requires 0 <= i < |listed| => Sighting(listed[i].path, Readable(listed[i].identity)))
  }

  /** The fingerprint that older releases gave to every modem enrols none. */
  function Enrolment(m: Meta): Option<Fingerprint> {
    if m.fingerprint == Some(LEGACY) then None else m.fingerprint
  }

  /** The enrolled fingerprint, after the one that older releases gave to every modem has
      been turned into a namespace. */
  method ReadEnrolled(service: InboundService) returns (r: Result<Option<Fingerprint>, StoreError>)
    requires service.InStep()
    modifies service`meta, service`failed
    ensures service.InStep() && (service.failed <==> old(service.failed) || r.Err?)
    ensures r.Ok? ==> r.value == service.meta.fingerprint == Enrolment(old(service.meta))
    ensures service.meta.(fingerprint := None, namespace := None) == old(service.meta).(fingerprint := None, namespace := None)
    ensures Effective(service.meta) == old(Effective(service.meta))
    ensures Enrolment(old(service.meta)).Some? ==> service.meta == old(service.meta)
  {
    var fault: Fault := *;
    r := service.ReadFingerprint(fault);
    if r == Ok(Some(LEGACY)) {
      var migrated := service.MigrateLegacyFingerprint();
      if migrated.Err? { return Err(StoreError); }
      // Nobody else writes here, so the migration finds what was just read.
      assert migrated.value;
      r := Ok(None);
    }
  }

  method ListCandidates(service: InboundService, listed: seq<Sighting>) returns (candidates: seq<Sighting>)
    requires service.InStep()
    modifies service`seen, service`published
    ensures service.InStep() && old(service.seen) <= service.seen
    ensures candidates == AsRead(listed) && forall c :: c in candidates ==> c in service.seen
  {
    candidates := [];
    for i := 0 to |listed|
      invariant service.InStep() && old(service.seen) <= service.seen
      invariant candidates == AsRead(listed[..i]) && forall c :: c in candidates ==> c in service.seen
    {
      var identity := service.ExtractIdentity(listed[i].path, listed[i].identity);
      candidates := candidates + [Sighting(listed[i].path, identity)];
    }
    assert listed[..|listed|] == listed;
  }

  /** A target that a resolution may return. */
  ghost predicate SafeTargets(service: InboundService, t: Targets)
    reads service
  {
    t.action.Some? ==> service.MayAct(t.action.value, service.seen)
  }

  /** The configured modem shows the enrolled identity, or the first one ever. */
  predicate Recognised(m: Meta, answers: Answers) {
    Readable(answers.configured).Some? && (Enrolment(m).None? || Enrolment(m) == Readable(answers.configured))
  }

  /** The configured modem is quarantined or shows another identity. */
  predicate Suspected(m: Meta, pending: Pending, configuredPath: Path, answers: Answers) {
    && Enrolment(m).Some?
    && (Quarantined(m, pending, configuredPath)
        || (Readable(answers.configured).Some? && Readable(answers.configured) != Enrolment(m)))
  }

  /** The targets that the readings call for. */
  ghost predicate CalledFor(m: Meta, pending: Pending, configuredPath: Path, answers: Answers, t: Targets) {
    if Recognised(m, answers) then t == Verified(configuredPath)
    else
      var (candidates, suspected) := (AsRead(answers.listed), Suspected(m, pending, configuredPath, answers));
      forall p: Path ::
        && (t.runtime == Some(p) <==> ReadsFrom(candidates, Enrolment(m), m.runtimeFingerprint, p))
        && (t.action == Some(p) <==>
              ActsOn(candidates, configuredPath, suspected, Enrolment(m), m.runtimeFingerprint, p))
  }

  /** What a resolution leaves in the store: an enrolment is never replaced, the first identity
      of the configured modem becomes it, and whatever is read from has a namespace. */
  ghost predicate Remembered(m: Meta, m': Meta, answers: Answers, t: Targets) {
    && (Enrolment(m).Some? ==> m'.fingerprint == m.fingerprint)
    && (Recognised(m, answers) ==> m'.fingerprint == Readable(answers.configured))
    && (t.runtime.Some? ==> Effective(m').Some?)
    && (!Recognised(m, answers) && t.action != t.runtime && |answers.listed| == 1
        && Readable(answers.listed[0].identity).Some? && t.runtime.Some? ==>
          m'.runtimeFingerprint == Readable(answers.listed[0].identity))
  }

  /** A path is quarantined after a resolution if it was before or is the configured one and shows
      another identity, and nothing but the enrolled identity takes a quarantine away. */
  ghost predicate StaysQuarantined(m: Meta, pending: Pending, configuredPath: Path, answers: Answers, p: Path) {
    if Recognised(m, answers) then Quarantined(m, pending, p) && p != configuredPath
    else
      && (Quarantined(m, pending, p) || (p == configuredPath && Readable(answers.configured).Some?))
      && !OnlyAt(AsRead(answers.listed), Enrolment(m), p)
  }

  lemma ChoiceIsCalledFor(m: Meta, pending: Pending, configuredPath: Path, answers: Answers, t: Targets)
    requires !Recognised(m, answers)
    requires t == Choose(AsRead(answers.listed), configuredPath, Suspected(m, pending, configuredPath, answers),
                         Enrolment(m), m.runtimeFingerprint)
    ensures CalledFor(m, pending, configuredPath, answers, t)
  {
    forall p: Path
      ensures t.runtime == Some(p) <==> ReadsFrom(AsRead(answers.listed), Enrolment(m), m.runtimeFingerprint, p)
      ensures t.action == Some(p) <==>
        ActsOn(AsRead(answers.listed), configuredPath, Suspected(m, pending, configuredPath, answers),
               Enrolment(m), m.runtimeFingerprint, p)
    {
      ChoiceExactly(AsRead(answers.listed), configuredPath, Suspected(m, pending, configuredPath, answers),
                    Enrolment(m), m.runtimeFingerprint, p);
    }
  }

  /** A resolution fails exactly if a store call does; otherwise its targets are those that the
      readings call for. */
  method ResolveMonitorPath(service: InboundService, answers: Answers) returns (r: Result<Targets, StoreError>)
    requires service.InStep() && !service.failed
    modifies service`meta, service`pending, service`seen, service`published, service`failed
    ensures service.InStep() && (r.Ok? <==> !service.failed)
    ensures r.Ok? ==> CalledFor(old(service.meta), old(service.pending), service.configuredPath, answers, r.value)
    ensures r.Ok? ==> Remembered(old(service.meta), service.meta, answers, r.value)
    ensures r.Ok? && Enrolment(old(service.meta)).Some? ==> forall p: Path ::
      Quarantined(service.meta, service.pending, p) <==>
        StaysQuarantined(old(service.meta), old(service.pending), service.configuredPath, answers, p)
    ensures r.Ok? ==> service.meta.fingerprint != Some(LEGACY) && SafeTargets(service, r.value)
  {
    var known := ReadKnown(service, answers.configured);
    if known.Err? { return Err(StoreError); }
    var Known(stored, runtime, identity, quarantined) := known.value;
    if identity.Some? && (stored.None? || stored == identity) {
      r := EnrolConfigured(service, stored, identity.value);
      return;
    }
    if identity.Some? {
      var persisted := service.PersistIdentityMismatch(service.configuredPath, stored.value);
      if !persisted { return Err(StoreError); }
    }
    r := ResolveFromCandidates(service, stored, runtime, quarantined || identity.Some?, answers);
    if r.Ok? { ChoiceIsCalledFor(old(service.meta), old(service.pending), service.configuredPath, answers, r.value); }
  }

  datatype Known = Known(
    stored: Option<Fingerprint>, runtime: Option<Fingerprint>, identity: Option<Fingerprint>, quarantined: bool)

  function KnownOf(m: Meta, pending: Pending, configuredPath: Path, answer: Option<Fingerprint>): Known {
    Known(Enrolment(m), m.runtimeFingerprint, Readable(answer),
          Enrolment(m).Some? && Quarantined(m, pending, configuredPath))
  }

  /** What the store knows and the configured modem shows. */
  method ReadKnown(service: InboundService, answer: Option<Fingerprint>) returns (r: Result<Known, StoreError>)
    requires service.InStep()
    modifies service`meta, service`pending, service`seen, service`published, service`failed
    ensures service.InStep() && (service.failed <==> old(service.failed) || r.Err?)
    ensures r.Ok? ==> r.value == KnownOf(old(service.meta), old(service.pending), service.configuredPath, answer)
    ensures r.Ok? ==> service.meta.fingerprint == r.value.stored && service.meta.runtimeFingerprint == r.value.runtime
    ensures r.Ok? ==> Sighting(service.configuredPath, Readable(answer)) in service.seen
    ensures r.Ok? && !r.value.quarantined ==> !Quarantined(service.meta, service.pending, service.configuredPath)
    ensures r.Ok? && r.value.stored.Some? ==> forall p: Path ::
      Quarantined(service.meta, service.pending, p) <==> old(Quarantined(service.meta, service.pending, p))
  {
    var retried := service.RetryPendingIdentityMismatches();
    if !retried { return Err(StoreError); }
    var read := ReadEnrolled(service);
    if read.Err? { return Err(StoreError); }
    var stored := read.value;
    var runtime := service.ReadRuntimeFingerprint();
    if runtime.Err? { return Err(StoreError); }
    var identity := service.ExtractIdentity(service.configuredPath, answer);
    var quarantined := ReadQuarantine(service, stored);
    if quarantined.Err? { return Err(StoreError); }
    r := Ok(Known(stored, runtime.value, identity, quarantined.value));
  }

  method ReadQuarantine(service: InboundService, stored: Option<Fingerprint>) returns (r: Result<bool, StoreError>)
    requires stored == service.meta.fingerprint
    modifies service`failed
    ensures service.failed <==> old(service.failed) || r.Err?
    ensures r.Ok? ==> r.value == Quarantined(service.meta, service.pending, service.configuredPath)
  {
    var mismatch := service.ReadMismatch(service.configuredPath);
    if mismatch.Err? { return Err(StoreError); }
    var pending := service.PendingIdentityMismatch(service.configuredPath);
    r := Ok(stored.Some? && (mismatch.value == stored || pending == stored));
  }

  /** The configured modem shows the enrolled identity, or the first one ever. */
  method EnrolConfigured(service: InboundService, stored: Option<Fingerprint>, current: Fingerprint)
    returns (r: Result<Targets, StoreError>)
    requires service.InStep() && stored == service.meta.fingerprint && stored != Some(LEGACY)
    requires Sighting(service.configuredPath, Some(current)) in service.seen && (stored.None? || stored == Some(current))
    modifies service`meta, service`pending, service`failed
    ensures service.InStep() && (service.failed <==> old(service.failed) || r.Err?)
    ensures r.Ok? ==> service.meta.fingerprint == Some(current) && current != LEGACY
    ensures r.Ok? && stored.Some? ==> forall p: Path ::
      Quarantined(service.meta, service.pending, p) <==>
        old(Quarantined(service.meta, service.pending, p)) && p != service.configuredPath
    ensures r.Ok? ==> r.value == Verified(service.configuredPath) && SafeTargets(service, r.value)
  {
    var cleared := service.ClearIdentityMismatch(service.configuredPath);
    if !cleared { return Err(StoreError); }
    if stored.None? {
      var written := service.SetFingerprint(current, service.configuredPath);
      if !written { return Err(StoreError); }
    }
    var filled := service.BackfillDedupeKeys();
    if !filled { return Err(StoreError); }
    r := Ok(Verified(service.configuredPath));
  }

  /** The configured modem is not the enrolled one, or cannot be read. */
  method ResolveFromCandidates(
      service: InboundService, stored: Option<Fingerprint>, runtime: Option<Fingerprint>, mismatch: bool, answers: Answers)
    returns (r: Result<Targets, StoreError>)
    requires service.InStep() && stored == service.meta.fingerprint && stored != Some(LEGACY)
    requires runtime == service.meta.runtimeFingerprint
    requires !mismatch ==> !Quarantined(service.meta, service.pending, service.configuredPath)
    modifies service`meta, service`pending, service`seen, service`published, service`failed
    ensures service.InStep() && (service.failed <==> old(service.failed) || r.Err?)
    ensures r.Ok? ==> service.meta.fingerprint != Some(LEGACY) && SafeTargets(service, r.value)
    ensures r.Ok? ==> r.value == Choose(AsRead(answers.listed), service.configuredPath, mismatch, stored, runtime)
    ensures r.Ok? ==> KeepsTrack(stored, service.meta, AsRead(answers.listed), r.value)
    ensures r.Ok? && stored.Some? ==> forall p: Path ::
      Quarantined(service.meta, service.pending, p) <==>
        old(Quarantined(service.meta, service.pending, p)) && !OnlyAt(AsRead(answers.listed), stored, p)
  {
    var candidates := ListCandidates(service, answers.listed);
    var configuredAction := ConfiguredAction(candidates, service.configuredPath, mismatch);
    var enrolled := SelectEnrolled(service, stored, candidates, configuredAction, mismatch);
    forall p: Path ensures OnlyAt(candidates, stored, p) <==>
                             |Showing(candidates, stored)| == 1 && Showing(candidates, stored)[0] == p {
      ShowingIsExact(candidates, stored, p);
    }
    if enrolled.Some? { return enrolled.value; }
    var observed := SelectObserved(service, runtime, candidates, configuredAction, mismatch);
    if observed.Some? {
      assert Sighting(Showing(candidates, runtime)[0], runtime) in candidates;
      return observed.value;
    }
    if |candidates| != 1 { return Ok(ActionOnly(configuredAction)); }
    r := SelectOnly(service, stored, runtime, mismatch, candidates[0], answers.local);
  }

  /** The enrolled modem is there, once or more often. */
  method SelectEnrolled(
      service: InboundService, stored: Option<Fingerprint>, candidates: seq<Sighting>,
      configuredAction: Option<Path>, ghost mismatch: bool)
    returns (r: Option<Result<Targets, StoreError>>)
    requires service.InStep() && stored == service.meta.fingerprint && stored != Some(LEGACY)
    requires configuredAction == ConfiguredAction(candidates, service.configuredPath, mismatch)
    requires !mismatch ==> !Quarantined(service.meta, service.pending, service.configuredPath)
    requires forall c :: c in candidates ==> c in service.seen
    modifies service`meta, service`pending, service`failed
    ensures service.InStep() && (service.failed <==> old(service.failed) || (r.Some? && r.value.Err?))
    ensures service.meta.fingerprint == stored
    ensures r.None? <==> Showing(candidates, stored) == []
    ensures r.None? ==> service.meta == old(service.meta) && service.pending == old(service.pending)
    ensures r.Some? && r.value.Ok? ==> forall p: Path ::
      Quarantined(service.meta, service.pending, p) <==>
        old(Quarantined(service.meta, service.pending, p))
        && !(|Showing(candidates, stored)| == 1 && p == Showing(candidates, stored)[0])
    ensures r.Some? && r.value.Ok? ==>
      && r.value.value == (if |Showing(candidates, stored)| == 1 then Verified(Showing(candidates, stored)[0])
                           else ActionOnly(configuredAction))
      && SafeTargets(service, r.value.value)
  {
    if stored.None? { return None; }
    var matched, ambiguous := MatchCandidates(candidates, stored.value);
    if ambiguous { return Some(Ok(ActionOnly(configuredAction))); }
    if matched.None? { return None; }
    var cleared := service.ClearIdentityMismatch(matched.value);
    if !cleared { return Some(Err(StoreError)); }
    var filled := service.BackfillDedupeKeys();
    r := Some(if filled then Ok(Verified(matched.value)) else Err(StoreError));
  }

  /** The modem that messages were read from before is there, once or more often. */
  method SelectObserved(
      service: InboundService, runtime: Option<Fingerprint>, candidates: seq<Sighting>,
      configuredAction: Option<Path>, ghost mismatch: bool)
    returns (r: Option<Result<Targets, StoreError>>)
    requires service.InStep() && runtime == service.meta.runtimeFingerprint && service.meta.fingerprint != Some(LEGACY)
    requires configuredAction == ConfiguredAction(candidates, service.configuredPath, mismatch)
    requires !mismatch ==> !Quarantined(service.meta, service.pending, service.configuredPath)
    requires forall c :: c in candidates ==> c in service.seen
    modifies service`meta, service`failed
    ensures service.InStep() && (service.failed <==> old(service.failed) || (r.Some? && r.value.Err?))
    ensures service.meta == old(service.meta)
    ensures r.None? <==> Showing(candidates, runtime) == []
    ensures r.Some? && r.value.Ok? ==>
      && r.value.value == (if |Showing(candidates, runtime)| == 1
                           then Targets(Some(Showing(candidates, runtime)[0]), configuredAction)
                           else ActionOnly(configuredAction))
      && SafeTargets(service, r.value.value)
  {
    if runtime.None? { return None; }
    var matched, ambiguous := MatchCandidates(candidates, runtime.value);
    if ambiguous { return Some(Ok(ActionOnly(configuredAction))); }
    if matched.None? { return None; }
    var ensured := service.EnsureNamespace(runtime.value);
    if !ensured { return Some(Err(StoreError)); }
    var filled := service.BackfillDedupeKeys();
    if !filled { return Some(Err(StoreError)); }
    r := Some(Ok(if configuredAction.Some? then Separate(matched.value, configuredAction.value)
                 else RuntimeOnly(matched.value)));
  }

  /** The store after a choice among candidates. */
  ghost predicate KeepsTrack(stored: Option<Fingerprint>, m: Meta, candidates: seq<Sighting>, t: Targets) {
    && (stored.Some? ==> m.fingerprint == stored)
    && (t.runtime.Some? ==> Effective(m).Some?)
    && (t.action != t.runtime && |candidates| == 1 && candidates[0].identity.Some? && t.runtime.Some? ==>
          m.runtimeFingerprint == candidates[0].identity)
  }

  /** There is one modem, and nothing is known of it. */
  method SelectOnly(
      service: InboundService, stored: Option<Fingerprint>, runtime: Option<Fingerprint>, mismatch: bool,
      only: Sighting, local: Fingerprint)
    returns (r: Result<Targets, StoreError>)
    requires service.InStep() && stored == service.meta.fingerprint && stored != Some(LEGACY)
    requires runtime == service.meta.runtimeFingerprint && only in service.seen
    requires stored.Some? ==> only.identity != stored
    requires !mismatch ==> !Quarantined(service.meta, service.pending, service.configuredPath)
    modifies service`meta, service`failed
    ensures service.InStep() && (service.failed <==> old(service.failed) || r.Err?)
    ensures r.Ok? ==> service.meta.fingerprint != Some(LEGACY) && SafeTargets(service, r.value)
    ensures var trusted := only.path == service.configuredPath && !mismatch && (only.identity.None? || stored.None?);
      r.Ok? ==> r.value == (if trusted then Verified(only.path) else RuntimeOnly(only.path))
    ensures r.Ok? ==> KeepsTrack(stored, service.meta, [only], r.value)
    ensures stored.Some? ==> forall p: Path ::
      Quarantined(service.meta, service.pending, p) <==> old(Quarantined(service.meta, service.pending, p))
  {
    var configured := only.path == service.configuredPath && !mismatch;
    var resolved := if configured then Verified(only.path) else RuntimeOnly(only.path);
    if configured && only.identity.Some? && stored.None? {
      var written := service.SetFingerprint(only.identity.value, only.path);
      if !written { return Err(StoreError); }
    } else if only.identity.Some? {
      var done := RecordRuntime(service, only.path, only.identity.value);
      if !done { return Err(StoreError); }
      resolved := RuntimeOnly(only.path);
    } else if stored.None? && runtime.None? {
      var ensured := service.EnsureNamespace(local);
      if !ensured { return Err(StoreError); }
    }
    var filled := service.BackfillDedupeKeys();
    r := if filled then Ok(resolved) else Err(StoreError);
  }

  /** The namespace first, so that a runtime fingerprint never stands without one. */
  method RecordRuntime(service: InboundService, path: Path, f: Fingerprint) returns (ok: bool)
    requires service.InStep() && Sighting(path, Some(f)) in service.seen
    modifies service`meta, service`failed
    ensures service.InStep() && (service.failed <==> old(service.failed) || !ok)
    ensures service.meta.fingerprint == old(service.meta.fingerprint)
    ensures service.meta.mismatches == old(service.meta.mismatches)
    ensures ok ==> service.meta.runtimeFingerprint == Some(f) && service.meta.namespace.Some?
  {
    assert service.meta.fingerprint.Some? && service.meta.fingerprint != Some(f) ==>
      SawAnother(service.meta.fingerprint, service.seen);
    ok := service.EnsureNamespace(f);
    if ok { ok := service.SetRuntimeFingerprint(f); }
  }

  method PublishResolved(service: InboundService, resolved: Targets) returns (path: Option<Path>)
    modifies service`targets, service`published
    ensures service.targets == resolved && path == resolved.runtime && service.published == service.seen
  {
    service.targets := resolved;
    service.published := service.seen;
    path := resolved.runtime;
  }

  // ---------- Watching ----------

  /** In this step the path showed an identity that is not the enrolled one. */
  ghost predicate ShownAnother(service: InboundService, path: Path)
    reads service
  {
    && service.meta.fingerprint.Some?
    && exists f: Fingerprint :: Sighting(path, Some(f)) in service.seen && Some(f) != service.meta.fingerprint
  }

  /** The identity of the path that is acted on: enrolled if it is the first ever, and
      revoked before anything else if it is another one. `readFault` is what happens to the
      read of the enrolled fingerprint. */
  method CheckAction(service: InboundService, path: Path, f: Fingerprint, actualPath: Path, readFault: Fault)
    returns (ok: bool, changed: bool)
    requires service.InStep() && service.Valid() && Sighting(path, Some(f)) in service.seen
    requires service.targets.action == Some(path) && service.meta.fingerprint != Some(LEGACY)
    modifies service`meta, service`pending, service`targets, service`failed
    ensures service.InStep() && service.Valid() && service.meta.fingerprint != Some(LEGACY)
    ensures service.failed <==> old(service.failed) || !ok
    ensures ok && old(service.meta.fingerprint).None? ==> service.meta.fingerprint == Some(f)
    ensures changed <==>
      readFault == NoFault && old(service.meta.fingerprint).Some? && old(service.meta.fingerprint) != Some(f)
    ensures service.targets == (if changed then RuntimeOnly(actualPath) else old(service.targets))
    ensures changed ==> Quarantined(service.meta, service.pending, path)
    ensures readFault != NoFault ==> !ok
    ensures old(service.meta.fingerprint).Some? ==> service.meta.fingerprint == old(service.meta.fingerprint)
    ensures service.meta.fingerprint.Some? && old(service.meta.fingerprint).None? ==> service.meta.fingerprint == Some(f)
  {
    changed := false;
    var stored := service.ReadFingerprint(readFault);
    if stored.Err? { return false, false; }
    if stored.value.None? {
      ok := service.SetFingerprint(f, path);
      if ok { ok := service.BackfillDedupeKeys(); }
    } else if stored.value == Some(f) {
      ok := true;
    } else {
      changed := true;
      service.targets := RuntimeOnly(actualPath);
      ok := service.PersistIdentityMismatch(path, stored.value.value);
    }
  }

  /** A modem that is only read from: remember its identity if it is a new one. */
  method RecordObserved(service: InboundService, path: Path, f: Fingerprint) returns (ok: bool)
    requires service.InStep() && Sighting(path, Some(f)) in service.seen
    modifies service`meta, service`failed
    ensures service.InStep() && (service.failed <==> old(service.failed) || !ok)
    ensures service.meta.fingerprint == old(service.meta.fingerprint)
    ensures service.meta.mismatches == old(service.meta.mismatches)
    ensures ok ==> service.meta.runtimeFingerprint == Some(f)
  {
    var runtime := service.ReadRuntimeFingerprint();
    if runtime.Err? { return false; }
    if runtime.value == Some(f) { return true; }
    ok := RecordRuntime(service, path, f);
    if ok { ok := service.BackfillDedupeKeys(); }
  }

  /** What a step that watches leaves behind: the action target is revoked and quarantined exactly
      if it showed another identity and the enrolled fingerprint could be read. */
  twostate predicate RevokedExactly(service: InboundService, path: Path, actualPath: Path, readFault: Fault)
    reads service
  {
    if !ShownAnother(service, path) then service.targets == old(service.targets)
    else if readFault == NoFault
    then service.targets == RuntimeOnly(actualPath) && Quarantined(service.meta, service.pending, path)
    else service.targets == old(service.targets) && !Quarantined(service.meta, service.pending, path)
  }

  /** What a step that watches reads: the modem that is acted on, and the one that is read from. */
  function Watched(
      action: Option<Path>, actualPath: Path, actionAnswer: Option<Fingerprint>, actualAnswer: Option<Fingerprint>)
    : set<Sighting>
  {
    {Sighting(actualPath, Readable(actualAnswer))}
    + (if action.Some? && action.value != actualPath then {Sighting(action.value, Readable(actionAnswer))} else {})
  }

  /** What the modem that is acted on shows. */
  function ActionShows(
      action: Option<Path>, actualPath: Path, actionAnswer: Option<Fingerprint>, actualAnswer: Option<Fingerprint>)
    : Option<Fingerprint>
  {
    if action.None? then None else if action.value == actualPath then Readable(actualAnswer) else Readable(actionAnswer)
  }

  /** An action target that shows another identity is revoked and quarantined unless the read of
      the enrolled fingerprint fails, also if writes then fail; nothing but a revocation changes
      the targets. A step without failures has read both modems, and has enrolled the first
      identity ever and remembered that of a modem that is only read from. The answers of the
      modems are given, a fault may hit any store call. */
  method ObserveRuntimeIdentity(
      service: InboundService, actualPath: Path,
      actionAnswer: Option<Fingerprint>, actualAnswer: Option<Fingerprint>, readFault: Fault)
    returns (ok: bool)
    requires service.InStep() && service.Valid() && service.seen == {} && !service.failed
    requires service.targets.runtime == Some(actualPath)
    modifies service`meta, service`pending, service`targets, service`seen, service`published, service`failed
    ensures service.InStep() && service.Valid() && (ok <==> !service.failed)
    ensures service.published == old(service.published) + service.seen
    ensures service.seen <= Watched(old(service.targets.action), actualPath, actionAnswer, actualAnswer)
    ensures ok ==> service.seen == Watched(old(service.targets.action), actualPath, actionAnswer, actualAnswer)
    ensures old(service.pending) == map[] && old(service.targets.action).Some? ==>
      Sighting(old(service.targets.action).value,
               ActionShows(old(service.targets.action), actualPath, actionAnswer, actualAnswer)) in service.seen
    ensures old(service.targets.action).None? ==> service.targets == old(service.targets)
    ensures old(service.targets.action).Some? ==>
      RevokedExactly(service, old(service.targets.action).value, actualPath, readFault)
    ensures old(service.meta.fingerprint).Some? ==> service.meta.fingerprint == old(service.meta.fingerprint)
    ensures ok && old(service.meta.fingerprint).None? ==>
      service.meta.fingerprint == ActionShows(old(service.targets.action), actualPath, actionAnswer, actualAnswer)
    ensures ok && Readable(actualAnswer).Some? && service.targets.action != Some(actualPath) ==>
      service.meta.runtimeFingerprint == Readable(actualAnswer)
  {
    var retried := service.RetryPendingIdentityMismatches();
    if !retried { return false; }
    if service.targets.action == Some(actualPath) {
      ok := ObserveVerified(service, actualPath, actualAnswer, readFault);
    } else {
      ok := ObserveSeparate(service, actualPath, actionAnswer, actualAnswer, readFault);
    }
  }

  /** One modem serves both roles. */
  method ObserveVerified(service: InboundService, actualPath: Path, answer: Option<Fingerprint>, readFault: Fault)
    returns (ok: bool)
    requires service.InStep() && service.Valid() && service.seen == {} && !service.failed
    requires service.targets.runtime == service.targets.action == Some(actualPath)
    modifies service`meta, service`pending, service`targets, service`seen, service`published, service`failed
    ensures service.InStep() && service.Valid() && (ok <==> !service.failed)
    ensures service.published == old(service.published) + service.seen
    ensures service.seen == {Sighting(actualPath, Readable(answer))}
    ensures RevokedExactly(service, actualPath, actualPath, readFault)
    ensures old(service.meta.fingerprint).Some? ==> service.meta.fingerprint == old(service.meta.fingerprint)
    ensures ok && old(service.meta.fingerprint).None? ==> service.meta.fingerprint == Readable(answer)
    ensures ok && Readable(answer).Some? && service.targets.action != Some(actualPath) ==>
      service.meta.runtimeFingerprint == Readable(answer)
  {
    var identity := service.ExtractIdentity(actualPath, answer);
    if identity.None? { return true; }
    var checked, changed := CheckAction(service, actualPath, identity.value, actualPath, readFault);
    if !checked { return false; }
    ok := true;
    if changed { ok := RecordRuntime(service, actualPath, identity.value); }
  }

  /** The modem that is acted on, if any, is another one than the modem that is read from. */
  method ObserveSeparate(
      service: InboundService, actualPath: Path,
      actionAnswer: Option<Fingerprint>, actualAnswer: Option<Fingerprint>, readFault: Fault)
    returns (ok: bool)
    requires service.InStep() && service.Valid() && service.seen == {} && !service.failed
    requires service.targets.runtime == Some(actualPath) && service.targets.action != Some(actualPath)
    modifies service`meta, service`pending, service`targets, service`seen, service`published, service`failed
    ensures service.InStep() && service.Valid() && (ok <==> !service.failed)
    ensures service.published == old(service.published) + service.seen
    ensures service.seen <= Watched(old(service.targets.action), actualPath, actionAnswer, actualAnswer)
    ensures ok ==> service.seen == Watched(old(service.targets.action), actualPath, actionAnswer, actualAnswer)
    ensures old(service.targets.action).Some? ==>
      Sighting(old(service.targets.action).value, Readable(actionAnswer)) in service.seen
    ensures old(service.targets.action).None? ==> service.targets == old(service.targets)
    ensures old(service.targets.action).Some? ==>
      RevokedExactly(service, old(service.targets.action).value, actualPath, readFault)
    ensures old(service.meta.fingerprint).Some? ==> service.meta.fingerprint == old(service.meta.fingerprint)
    ensures ok && old(service.meta.fingerprint).None? ==>
      service.meta.fingerprint == ActionShows(old(service.targets.action), actualPath, actionAnswer, actualAnswer)
    ensures ok && Readable(actualAnswer).Some? ==> service.meta.runtimeFingerprint == Readable(actualAnswer)
  {
    var action := service.targets.action;
    if action.Some? {
      var checked := ObserveAction(service, action.value, actualPath, actionAnswer, readFault);
      if !checked { return false; }
    }
    ok := ObserveActual(service, actualPath, actualAnswer);
  }

  method ObserveActual(service: InboundService, actualPath: Path, answer: Option<Fingerprint>) returns (ok: bool)
    requires service.InStep() && service.Valid() && !service.failed
    modifies service`meta, service`seen, service`published, service`failed
    ensures service.InStep() && service.Valid() && (ok <==> !service.failed)
    ensures service.published == old(service.published) + {Sighting(actualPath, Readable(answer))}
    ensures service.seen == old(service.seen) + {Sighting(actualPath, Readable(answer))}
    ensures service.meta.fingerprint == old(service.meta.fingerprint)
    ensures service.meta.mismatches == old(service.meta.mismatches)
    ensures ok && Readable(answer).Some? ==> service.meta.runtimeFingerprint == Readable(answer)
  {
    var identity := service.ExtractIdentity(actualPath, answer);
    if identity.None? { return true; }
    ok := RecordObserved(service, actualPath, identity.value);
  }

  method ObserveAction(
      service: InboundService, action: Path, actualPath: Path, answer: Option<Fingerprint>, readFault: Fault)
    returns (ok: bool)
    requires service.InStep() && service.Valid() && service.seen == {} && !service.failed
    requires service.targets == Targets(Some(actualPath), Some(action))
    modifies service`meta, service`pending, service`targets, service`seen, service`published, service`failed
    ensures service.InStep() && service.Valid() && (ok <==> !service.failed)
    ensures service.published == old(service.published) + service.seen
    ensures service.seen == {Sighting(action, Readable(answer))}
    ensures RevokedExactly(service, action, actualPath, readFault)
    ensures old(service.meta.fingerprint).Some? ==> service.meta.fingerprint == old(service.meta.fingerprint)
    ensures ok && old(service.meta.fingerprint).None? ==> service.meta.fingerprint == Readable(answer)
  {
    var identity := service.ExtractIdentity(action, answer);
    if identity.None? { return true; }
    var checked, changed := CheckAction(service, action, identity.value, actualPath, readFault);
    ok := checked;
  }

  /** The failing read: the modem has shown another identity, and is still acted on. */
  method RevocationCanBeMissed() returns (service: InboundService)
    ensures service.Valid() && service.targets.action == Some("modem")
    ensures ShownAnother(service, "modem") && !Quarantined(service.meta, service.pending, "modem")
  {
    service := new InboundService("modem", Meta(Some(1), None, None, map[]));
    service.BeginStep();
    var first := service.ExtractIdentity("modem", Some(1));
    var path := PublishResolved(service, Verified("modem"));
    service.BeginStep();
    var ok := ObserveRuntimeIdentity(service, "modem", None, Some(2), LostBefore);
    assert Sighting("modem", Some(2)) in service.seen && service.meta.fingerprint == Some(1);
  }
}
