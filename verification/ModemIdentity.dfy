/** Which modem may be acted on, and which namespace deduplicates its messages: what the
    store remembers about identities, the mismatches held in memory until they are stored,
    and what one step may do to them.

    Fingerprints of identities are injective and opaque; no modem's fingerprint is the
    legacy one. */
module ModemIdentity {
  import opened Wrappers

  type Path = string
  type Fingerprint = nat

  const LEGACY: Fingerprint := 0

  /** The rows of the meta table that concern modem identities. */
  datatype Meta = Meta(
    fingerprint: Option<Fingerprint>,
    runtimeFingerprint: Option<Fingerprint>,
    namespace: Option<Fingerprint>,
    mismatches: map<Path, Fingerprint>)

  type Pending = map<Path, Fingerprint>

  datatype Targets = Targets(runtime: Option<Path>, action: Option<Path>)

  const NO_TARGETS := Targets(None, None)

  function RuntimeOnly(path: Path): Targets { Targets(Some(path), None) }
  function Verified(path: Path): Targets { Targets(Some(path), Some(path)) }
  function Separate(runtimePath: Path, actionPath: Path): Targets { Targets(Some(runtimePath), Some(actionPath)) }

  function ActionOnly(path: Option<Path>): Targets { Targets(None, path) }

  /** One reading of a modem's identity. */
  datatype Sighting = Sighting(path: Path, identity: Option<Fingerprint>)

  function Readable(answer: Option<Fingerprint>): Option<Fingerprint> {
    if answer == Some(LEGACY) then None else answer
  }

  /** Stored or pending against the enrolled fingerprint. */
  predicate Quarantined(m: Meta, pending: Pending, path: Path) {
    && m.fingerprint.Some?
    && ((path in m.mismatches && m.mismatches[path] == m.fingerprint.value)
        || (path in pending && pending[path] == m.fingerprint.value))
  }

  /** The namespace under which inbound messages are deduplicated. */
  function Effective(m: Meta): Option<Fingerprint> {
    if m.namespace.Some? then m.namespace
    else if m.fingerprint.Some? then m.fingerprint
    else m.runtimeFingerprint
  }

  predicate Enrolled(m: Meta) {
    m.fingerprint.Some? && m.fingerprint.value != LEGACY
  }

  ghost predicate WellKept(m: Meta, pending: Pending) {
    && (m.runtimeFingerprint.Some? ==> m.namespace.Some?)
    && (forall p :: p in m.mismatches ==> m.mismatches[p] == LEGACY || m.fingerprint == Some(m.mismatches[p]))
    && (forall p :: p in pending ==> pending[p] != LEGACY && m.fingerprint == Some(pending[p]))
  }

  // ---------- What one step may do ----------

  ghost predicate SawAnother(enrolled: Option<Fingerprint>, seen: set<Sighting>) {
    enrolled.Some? && exists s :: s in seen && s.identity.Some? && s.identity != enrolled
  }

  /** A quarantine outlasts the step, unless its path was read as the enrolled modem. */
  ghost predicate Survives(m: Meta, pending: Pending, m': Meta, pending': Pending, seen: set<Sighting>, path: Path) {
    Enrolled(m) && Quarantined(m, pending, path) ==>
      Quarantined(m', pending', path) || Sighting(path, m.fingerprint) in seen
  }

  ghost predicate MetaAdvances(m: Meta, m': Meta, seen: set<Sighting>) {
    && (m.namespace.Some? ==> m'.namespace == m.namespace)
    && (Enrolled(m) ==> m'.fingerprint == m.fingerprint)
    && (Effective(m).Some? ==>
          Effective(m') == Effective(m) || (SawAnother(m.fingerprint, seen) && m'.namespace.Some?))
    && (m'.fingerprint == m.fingerprint || m'.fingerprint.None? || exists s :: s in seen && s.identity == m'.fingerprint)
  }

  ghost predicate Advances(m: Meta, pending: Pending, m': Meta, pending': Pending, seen: set<Sighting>) {
    MetaAdvances(m, m', seen) && forall path: Path :: Survives(m, pending, m', pending', seen, path)
  }

  ghost predicate NeverLegacy(seen: set<Sighting>) {
    forall s :: s in seen ==> s.identity != Some(LEGACY)
  }

  lemma {:induction false} Chain(a: Meta, pa: Pending, b: Meta, pb: Pending, c: Meta, pc: Pending,
                                 seen: set<Sighting>, more: set<Sighting>)
    requires WellKept(a, pa) && NeverLegacy(more) && seen <= more
    requires Advances(a, pa, b, pb, seen) && Advances(b, pb, c, pc, more)
    ensures Advances(a, pa, c, pc, more)
  {
    assert MetaAdvances(a, c, more);
    forall path: Path ensures Survives(a, pa, c, pc, more, path) {
      assert Survives(a, pa, b, pb, seen, path) && Survives(b, pb, c, pc, more, path);
    }
  }

  /** A mismatch of `path` is remembered, in the store or in memory. */
  ghost predicate Marks(m: Meta, pending: Pending, m': Meta, pending': Pending, path: Path, enrolled: Fingerprint) {
    && (m' == m || m' == m.(mismatches := m.mismatches[path := enrolled]))
    && (pending' == pending[path := enrolled]
        || (pending' == pending - {path} && m' == m.(mismatches := m.mismatches[path := enrolled])))
  }

  lemma MarkedIsQuarantined(m: Meta, pending: Pending, m': Meta, pending': Pending, path: Path, enrolled: Fingerprint)
    requires WellKept(m, pending) && Enrolled(m) && m.fingerprint == Some(enrolled)
    requires Marks(m, pending, m', pending', path, enrolled)
    ensures WellKept(m', pending') && Quarantined(m', pending', path)
    ensures forall p :: p != path ==> (Quarantined(m', pending', p) <==> Quarantined(m, pending, p))
  {
  }

  // ---------- The service and the store behind it ----------

  datatype StoreError = StoreError

  datatype Fault = NoFault | LostBefore | LostAfter

  class InboundService {
    const configuredPath: Path
    var meta: Meta
    var pending: Pending
    var targets: Targets
    /** What this step has read, and what was read since (and when) the targets were resolved. */
    ghost var seen: set<Sighting>
    ghost var published: set<Sighting>
    /** Some store call of this step has failed. */
    ghost var failed: bool
    /** Where this step began. */
    ghost var startMeta: Meta
    ghost var startPending: Pending

    /** Holds between any two operations of a step. */
    ghost predicate InStep()
      reads this
    {
      && WellKept(meta, pending)
      && WellKept(startMeta, startPending)
      && Advances(startMeta, startPending, meta, pending, seen)
      && NeverLegacy(seen)
    }

    /** A path may be acted on. */
    ghost predicate MayAct(path: Path, seen: set<Sighting>)
      reads this
    {
      && meta.fingerprint != Some(LEGACY)
      && !Quarantined(meta, pending, path)
      && ((meta.fingerprint.Some? && Sighting(path, meta.fingerprint) in seen)
          || (path == configuredPath && Sighting(path, None) in seen))
    }

    /** Holds between steps. */
    ghost predicate Valid()
      reads this
    {
      && WellKept(meta, pending)
      && (targets.runtime.Some? ==> meta.fingerprint != Some(LEGACY))
      && (targets.action.Some? ==> MayAct(targets.action.value, published))
    }

    constructor (configuredPath: Path, meta: Meta)
      requires WellKept(meta, map[])
      ensures Valid() && this.configuredPath == configuredPath && this.meta == meta
      ensures pending == map[] && targets == NO_TARGETS && !failed
    {
      this.configuredPath, this.meta, this.pending, this.targets := configuredPath, meta, map[], NO_TARGETS;
      this.seen, this.published, this.failed, this.startMeta, this.startPending := {}, {}, false, meta, map[];
    }

    ghost method BeginStep()
      requires WellKept(meta, pending)
      modifies this`seen, this`failed, this`startMeta, this`startPending
      ensures InStep() && seen == {} && !failed && startMeta == meta && startPending == pending
    {
      seen, failed, startMeta, startPending := {}, false, meta, pending;
    }

    /** A store call may fail. */
    method Reach() returns (fault: Fault)
      modifies this`failed
      ensures failed <==> old(failed) || fault != NoFault
    {
      fault := *;
      failed := failed || fault != NoFault;
    }

    /** The modem may answer anything but the legacy fingerprint, or nothing. */
    method ExtractIdentity(path: Path, answer: Option<Fingerprint>) returns (identity: Option<Fingerprint>)
      requires InStep()
      modifies this`seen, this`published
      ensures InStep() && identity == Readable(answer)
      ensures seen == old(seen) + {Sighting(path, identity)}
      ensures published == old(published) + {Sighting(path, identity)}
    {
      identity := Readable(answer);
      seen, published := seen + {Sighting(path, identity)}, published + {Sighting(path, identity)};
      Chain(startMeta, startPending, meta, pending, meta, pending, old(seen), seen);
    }

    method ReadFingerprint(fault: Fault) returns (r: Result<Option<Fingerprint>, StoreError>)
      modifies this`failed
      ensures r == (if fault == NoFault then Ok(meta.fingerprint) else Err(StoreError))
      ensures failed <==> old(failed) || fault != NoFault
    {
      failed := failed || fault != NoFault;
      r := if fault == NoFault then Ok(meta.fingerprint) else Err(StoreError);
    }

    method ReadRuntimeFingerprint() returns (r: Result<Option<Fingerprint>, StoreError>)
      modifies this`failed
      ensures r.Ok? ==> r.value == meta.runtimeFingerprint
      ensures failed <==> old(failed) || r.Err?
    {
      var fault := Reach();
      r := if fault == NoFault then Ok(meta.runtimeFingerprint) else Err(StoreError);
    }

    method ReadMismatch(path: Path) returns (r: Result<Option<Fingerprint>, StoreError>)
      modifies this`failed
      ensures r.Ok? ==> r.value == if path in meta.mismatches then Some(meta.mismatches[path]) else None
      ensures failed <==> old(failed) || r.Err?
    {
      var fault := Reach();
      r := if fault != NoFault then Err(StoreError)
           else Ok(if path in meta.mismatches then Some(meta.mismatches[path]) else None);
    }

    method PendingIdentityMismatch(path: Path) returns (r: Option<Fingerprint>)
      ensures r == if path in pending then Some(pending[path]) else None
    {
      r := if path in pending then Some(pending[path]) else None;
    }

    /** A write may fail without effect, or report a failure after it was committed. */
    method SetFingerprint(f: Fingerprint, ghost path: Path) returns (ok: bool)
      requires InStep() && meta.fingerprint.None? && Sighting(path, Some(f)) in seen
      modifies this`meta, this`failed
      ensures InStep() && (failed <==> old(failed) || !ok)
      ensures meta == old(meta) || meta == old(meta).(fingerprint := Some(f))
      ensures ok ==> meta == old(meta).(fingerprint := Some(f))
    {
      var fault := Reach();
      if fault != LostBefore { meta := meta.(fingerprint := Some(f)); }
      Chain(startMeta, startPending, old(meta), pending, meta, pending, seen, seen);
      ok := fault == NoFault;
    }

    /** Leaves the namespace alone if there is one. */
    method EnsureNamespace(candidate: Fingerprint) returns (ok: bool)
      requires InStep()
      requires meta.namespace.None? ==>
                 meta.fingerprint.None? || meta.fingerprint == Some(candidate) || SawAnother(meta.fingerprint, seen)
      modifies this`meta, this`failed
      ensures InStep() && (failed <==> old(failed) || !ok)
      ensures meta == old(meta) || (old(meta).namespace.None? && meta == old(meta).(namespace := Some(candidate)))
      ensures ok ==> meta.namespace == if old(meta).namespace.None? then Some(candidate) else old(meta).namespace
    {
      var fault := Reach();
      if fault != LostBefore && meta.namespace.None? { meta := meta.(namespace := Some(candidate)); }
      Chain(startMeta, startPending, old(meta), pending, meta, pending, seen, seen);
      ok := fault == NoFault;
    }

    method SetRuntimeFingerprint(f: Fingerprint) returns (ok: bool)
      requires InStep() && meta.namespace.Some?
      modifies this`meta, this`failed
      ensures InStep() && (failed <==> old(failed) || !ok)
      ensures meta == old(meta) || meta == old(meta).(runtimeFingerprint := Some(f))
      ensures ok ==> meta.runtimeFingerprint == Some(f)
    {
      var fault := Reach();
      if fault != LostBefore { meta := meta.(runtimeFingerprint := Some(f)); }
      Chain(startMeta, startPending, old(meta), pending, meta, pending, seen, seen);
      ok := fault == NoFault;
    }

    /** One transaction: keep the legacy fingerprint as the namespace, and forget it. */
    method MigrateLegacyFingerprint() returns (r: Result<bool, StoreError>)
      requires InStep()
      modifies this`meta, this`failed
      ensures InStep() && (failed <==> old(failed) || r.Err?)
      ensures r.Ok? ==> r.value == (old(meta).fingerprint == Some(LEGACY))
      ensures r == Ok(true) ==> meta.fingerprint.None?
      ensures r == Ok(false) ==> meta == old(meta)
      ensures meta.(fingerprint := None, namespace := None) == old(meta).(fingerprint := None, namespace := None)
      ensures Effective(meta) == Effective(old(meta))
    {
      var fault := Reach();
      if fault == LostBefore { return Err(StoreError); }
      if meta.fingerprint != Some(LEGACY) { return if fault == NoFault then Ok(false) else Err(StoreError); }
      if meta.namespace.None? { meta := meta.(namespace := Some(LEGACY)); }
      meta := meta.(fingerprint := None);
      Chain(startMeta, startPending, old(meta), pending, meta, pending, seen, seen);
      r := if fault == NoFault then Ok(true) else Err(StoreError);
    }

    method BackfillDedupeKeys() returns (ok: bool)
      modifies this`failed
      ensures failed <==> old(failed) || !ok
    {
      var fault := Reach();
      ok := fault == NoFault;
    }

    // ---------- Quarantine ----------

    /** In memory first, so that a failed write cannot lose it. */
    method PersistIdentityMismatch(path: Path, enrolled: Fingerprint) returns (ok: bool)
      requires InStep() && Enrolled(meta) && meta.fingerprint == Some(enrolled)
      modifies this`meta, this`pending, this`failed
      ensures InStep() && Quarantined(meta, pending, path) && (failed <==> old(failed) || !ok)
      ensures meta.(mismatches := map[]) == old(meta).(mismatches := map[])
      ensures forall p :: p != path ==> (Quarantined(meta, pending, p) <==> old(Quarantined(meta, pending, p)))
      ensures ok ==> pending == old(pending) - {path}
    {
      pending := pending[path := enrolled];
      var fault := Reach();
      if fault != LostBefore { meta := meta.(mismatches := meta.mismatches[path := enrolled]); }
      ok := fault == NoFault;
      if ok && path in pending && pending[path] == enrolled { pending := pending - {path}; }
      assert Marks(old(meta), old(pending), meta, pending, path, enrolled);
      MarkedIsQuarantined(old(meta), old(pending), meta, pending, path, enrolled);
      Chain(startMeta, startPending, old(meta), old(pending), meta, pending, seen, seen);
    }

    method ClearIdentityMismatch(path: Path) returns (ok: bool)
      requires InStep() && meta.fingerprint != Some(LEGACY)
      requires meta.fingerprint.Some? ==> Sighting(path, meta.fingerprint) in seen
      modifies this`meta, this`pending, this`failed
      ensures InStep() && meta.(mismatches := map[]) == old(meta).(mismatches := map[])
      ensures failed <==> old(failed) || !ok
      ensures ok ==> !Quarantined(meta, pending, path)
      ensures forall p :: Quarantined(meta, pending, p) ==> old(Quarantined(meta, pending, p))
      ensures forall p :: p != path && old(Quarantined(meta, pending, p)) ==> Quarantined(meta, pending, p)
    {
      var fault := Reach();
      if fault != LostBefore { meta := meta.(mismatches := meta.mismatches - {path}); }
      ok := fault == NoFault;
      if ok { pending := pending - {path}; }
      forall p: Path ensures Survives(old(meta), old(pending), meta, pending, seen, p) {
      }
      Chain(startMeta, startPending, old(meta), old(pending), meta, pending, seen, seen);
    }

    /** Every mismatch that is still pending is written again; the first failure ends it. */
    method RetryPendingIdentityMismatches() returns (ok: bool)
      requires InStep()
      modifies this`meta, this`pending, this`failed
      ensures InStep() && meta.(mismatches := map[]) == old(meta).(mismatches := map[])
      ensures failed <==> old(failed) || !ok
      ensures forall p :: Quarantined(meta, pending, p) <==> old(Quarantined(meta, pending, p))
      ensures ok ==> pending == map[]
      ensures old(pending) == map[] ==> ok && meta == old(meta) && pending == map[]
    {
      var todo := pending.Keys;
      while todo != {}
        invariant InStep() && meta.(mismatches := map[]) == old(meta).(mismatches := map[])
        invariant forall p :: Quarantined(meta, pending, p) <==> old(Quarantined(meta, pending, p))
        invariant failed == old(failed)
        invariant pending.Keys == todo
        invariant old(pending) == map[] ==> meta == old(meta) && pending == map[]
        decreases todo
      {
        var path :| path in todo;
        var stored := PersistIdentityMismatch(path, pending[path]);
        if !stored { return false; }
        todo := todo - {path};
      }
      ok := true;
    }
  }
}
