/** Whole runs of resolving, watching and restarting. */
module IdentityRuns {
  import opened Wrappers
  import opened ModemIdentity
  import opened ModemChoice
  import opened IdentityResolution

  /** What is stored, pending and published after a step, and what the step has read.
      `resolved` says that the step has published new targets, or none, from what it read. */
  datatype Snapshot = Snapshot(
    meta: Meta, pending: Pending, targets: Targets, seen: set<Sighting>, resolved: bool, published: set<Sighting>,
    failed: bool)

  /** What meets the monitor in one turn of its loop: a restart, a lost subscription, what the
      modems answer, and whether the enrolled fingerprint can be read while it watches. */
  datatype Turn = Turn(
    restart: bool, lost: bool, answers: Answers,
    actionAnswer: Option<Fingerprint>, actualAnswer: Option<Fingerprint>, readFault: Fault)

  ghost predicate Goes(h: seq<Snapshot>, i: int) {
    && 0 < i < |h|
    && Advances(h[i - 1].meta, h[i - 1].pending, h[i].meta, h[i].pending, h[i].seen)
    && h[i].published == (if h[i].resolved then h[i].seen else h[i - 1].published + h[i].seen)
  }

  ghost predicate Kept(configuredPath: Path, s: Snapshot) {
    WellKept(s.meta, s.pending) && (s.targets.action.Some? ==> Justified(configuredPath, s, s.targets.action.value))
  }

  /** Not quarantined, and read as the enrolled modem, or the configured path that could not be
      read, since the targets were resolved. */
  ghost predicate Justified(configuredPath: Path, s: Snapshot, path: Path) {
    && s.meta.fingerprint != Some(LEGACY)
    && !Quarantined(s.meta, s.pending, path)
    && ((s.meta.fingerprint.Some? && Sighting(path, s.meta.fingerprint) in s.published)
        || (path == configuredPath && Sighting(path, None) in s.published))
  }

  ghost predicate History(configuredPath: Path, h: seq<Snapshot>) {
    && h != [] && h[0].resolved && h[0].published == h[0].seen
    && (forall i :: 0 <= i < |h| ==> Kept(configuredPath, h[i]))
    && (forall i :: 0 < i < |h| ==> Goes(h, i))
  }

  ghost function Shot(service: InboundService, resolved: bool): Snapshot
    reads service
  {
    Snapshot(service.meta, service.pending, service.targets, service.seen, resolved, service.published, service.failed)
  }

  /** In this step the path showed an identity that is not the enrolled one. */
  ghost predicate Showed(s: Snapshot, path: Path) {
    && s.meta.fingerprint.Some?
    && exists f: Fingerprint :: Sighting(path, Some(f)) in s.seen && Some(f) != s.meta.fingerprint
  }

  function ToWatch(before: Snapshot, turn: Turn): set<Sighting>
    requires before.targets.runtime.Some?
  {
    Watched(before.targets.action, before.targets.runtime.value, turn.actionAnswer, turn.actualAnswer)
  }

  /** What a turn makes of the targets. It resolves while no path is known or the subscription was
      lost, and watches otherwise. It may be restarted when no mismatch is pending. */
  ghost predicate Does(configuredPath: Path, before: Snapshot, turn: Turn, after: Snapshot) {
    if turn.restart && before.pending == map[] then after.targets == NO_TARGETS && after.resolved
    else if before.targets.runtime.None? || turn.lost then
      && after.resolved
      && if after.failed then after.targets == NO_TARGETS
         else CalledFor(before.meta, before.pending, configuredPath, turn.answers, after.targets)
    else
      && !after.resolved
      && after.seen <= ToWatch(before, turn) && (!after.failed ==> after.seen == ToWatch(before, turn))
      && after.targets ==
           (if before.targets.action.Some? && Showed(after, before.targets.action.value) && turn.readFault == NoFault
            then RuntimeOnly(before.targets.runtime.value) else before.targets)
  }

  method Round(service: InboundService, turn: Turn) returns (ghost resolved: bool)
    requires service.Valid()
    modifies service
    ensures service.Valid()
    ensures Advances(old(service.meta), old(service.pending), service.meta, service.pending, service.seen)
    ensures service.published == (if resolved then service.seen else old(service.published) + service.seen)
    ensures Does(service.configuredPath, old(Shot(service, false)), turn, Shot(service, resolved))
  {
    service.BeginStep();
    resolved := true;
    if turn.restart && service.pending == map[] {
      var _ := PublishResolved(service, NO_TARGETS);
    } else if service.targets.runtime.None? || turn.lost {
      var r := ResolveMonitorPath(service, turn.answers);
      var _ := PublishResolved(service, if r.Ok? then r.value else NO_TARGETS);
    } else {
      var _ := ObserveRuntimeIdentity(service, service.targets.runtime.value, turn.actionAnswer, turn.actualAnswer, turn.readFault);
      resolved := false;
    }
  }

  lemma OneMore(configuredPath: Path, h: seq<Snapshot>, s: Snapshot)
    requires History(configuredPath, h) && Kept(configuredPath, s)
    requires var last := h[|h| - 1];
      && Advances(last.meta, last.pending, s.meta, s.pending, s.seen)
      && s.published == (if s.resolved then s.seen else last.published + s.seen)
    ensures History(configuredPath, h + [s])
  {
    var h' := h + [s];
    forall i | 0 <= i < |h'| ensures Kept(configuredPath, h'[i]) {
      if i < |h| { assert h'[i] == h[i]; }
    }
    forall i | 0 < i < |h'| ensures Goes(h', i) {
      if i < |h| { assert Goes(h, i); }
    }
  }

  ghost predicate Done(configuredPath: Path, h: seq<Snapshot>, turns: seq<Turn>, i: int) {
    0 <= i < |turns| && i + 1 < |h| && Does(configuredPath, h[i], turns[i], h[i + 1])
  }

  lemma DoneSoFar(configuredPath: Path, h: seq<Snapshot>, turns: seq<Turn>, s: Snapshot, n: nat)
    requires n < |turns| && |h| == n + 1 && Does(configuredPath, h[n], turns[n], s)
    requires forall i :: 0 <= i < n ==> Done(configuredPath, h, turns, i)
    ensures forall i :: 0 <= i <= n ==> Done(configuredPath, h + [s], turns, i)
  {
    forall i | 0 <= i <= n ensures Done(configuredPath, h + [s], turns, i) {
      assert i < n ==> Done(configuredPath, h, turns, i);
    }
  }

  /** The monitor's loop, turn after turn. */
  method Monitor(service: InboundService, turns: seq<Turn>) returns (ghost h: seq<Snapshot>)
    requires service.Valid() && service.targets == NO_TARGETS && service.published == service.seen
    modifies service
    ensures service.Valid() && History(service.configuredPath, h) && |h| == |turns| + 1
    ensures h[0] == old(Shot(service, true)) && h[|turns|] == Shot(service, h[|turns|].resolved)
    ensures forall i :: 0 <= i < |turns| ==> Done(service.configuredPath, h, turns, i)
  {
    h := [Shot(service, true)];
    for i := 0 to |turns|
      invariant service.Valid()
      invariant History(service.configuredPath, h) && |h| == i + 1 && h[0] == old(Shot(service, true))
      invariant h[i] == Shot(service, h[i].resolved)
      invariant forall j :: 0 <= j < i ==> Done(service.configuredPath, h, turns, j)
    {
      ghost var resolved := Round(service, turns[i]);
      DoneSoFar(service.configuredPath, h, turns, Shot(service, resolved), i);
      OneMore(service.configuredPath, h, Shot(service, resolved));
      h := h + [Shot(service, resolved)];
    }
  }

  // ---------- The enrolled modem stays in service ----------

  /** A watching turn in which the enrolled modem answers as itself, or not at all. */
  predicate Quiet(turn: Turn, enrolled: Option<Fingerprint>) {
    !turn.restart && !turn.lost && (Readable(turn.actualAnswer).None? || Readable(turn.actualAnswer) == enrolled)
  }

  /** An ordinary start: if the configured modem shows the enrolled identity, or the first one
      ever, and the store does not fail, then it is read from and acted on after the turn. */
  lemma RecognisedIsPublished(configuredPath: Path, h: seq<Snapshot>, turns: seq<Turn>, i: nat)
    requires i < |turns| && |h| == |turns| + 1 && Done(configuredPath, h, turns, i)
    requires h[i].targets.runtime.None? && !h[i + 1].failed && !turns[i].restart
    requires Recognised(h[i].meta, turns[i].answers)
    ensures h[i + 1].targets == Verified(configuredPath)
  {
  }

  /** It stays published, whatever fails, while it shows no other identity. */
  lemma {:induction false} VerifiedStaysVerified(
      configuredPath: Path, h: seq<Snapshot>, turns: seq<Turn>, path: Path, m: nat, n: nat)
    requires History(configuredPath, h) && |h| == |turns| + 1 && m <= n < |h|
    requires forall i :: 0 <= i < |turns| ==> Done(configuredPath, h, turns, i)
    requires Enrolled(h[m].meta) && h[m].targets == Verified(path)
    requires forall i :: m <= i < n ==> Quiet(turns[i], h[m].meta.fingerprint)
    ensures h[n].targets == Verified(path) && h[n].meta.fingerprint == h[m].meta.fingerprint
    decreases n
  {
    if m < n {
      VerifiedStaysVerified(configuredPath, h, turns, path, m, n - 1);
      assert Done(configuredPath, h, turns, n - 1) && Goes(h, n);
    }
  }

  // ---------- What a published target rests on ----------

  lemma {:induction false} PublishedWasRead(configuredPath: Path, h: seq<Snapshot>, i: nat, s: Sighting) returns (j: nat)
    requires History(configuredPath, h) && i < |h| && s in h[i].published
    ensures j <= i && s in h[j].seen && forall k :: j < k <= i ==> !h[k].resolved
    decreases i
  {
    if i == 0 || s in h[i].seen {
      j := i;
    } else {
      assert Goes(h, i);
      j := PublishedWasRead(configuredPath, h, i - 1, s);
    }
  }

  /** The path that is acted on is not quarantined, and in some step since its targets were
      resolved it was read as the enrolled modem, or is the configured path and could not be
      read. What an earlier resolution or an earlier process has read does not count. */
  lemma ActionRestsOnARecentSighting(configuredPath: Path, h: seq<Snapshot>, i: nat, path: Path)
    returns (j: nat, s: Sighting)
    requires History(configuredPath, h) && i < |h| && h[i].targets.action == Some(path)
    ensures !Quarantined(h[i].meta, h[i].pending, path)
    ensures j <= i && s in h[j].seen && s.path == path && forall k :: j < k <= i ==> !h[k].resolved
    ensures (h[i].meta.fingerprint.Some? && s.identity == h[i].meta.fingerprint)
            || (path == configuredPath && s.identity.None?)
  {
    assert Kept(configuredPath, h[i]);
    s := if h[i].meta.fingerprint.Some? && Sighting(path, h[i].meta.fingerprint) in h[i].published
         then Sighting(path, h[i].meta.fingerprint) else Sighting(path, None);
    j := PublishedWasRead(configuredPath, h, i, s);
  }

  // ---------- Quarantine over runs ----------

  /** A quarantine stands until its path is read as the enrolled modem, through failed
      writes, lost identities and restarts. */
  lemma {:induction false} QuarantineLasts(configuredPath: Path, h: seq<Snapshot>, path: Path, i: nat, j: nat)
    requires History(configuredPath, h) && i <= j < |h|
    requires Enrolled(h[i].meta) && Quarantined(h[i].meta, h[i].pending, path)
    requires forall k :: i < k <= j ==> Sighting(path, h[i].meta.fingerprint) !in h[k].seen
    ensures h[j].meta.fingerprint == h[i].meta.fingerprint && Quarantined(h[j].meta, h[j].pending, path)
    decreases j
  {
    if i < j {
      QuarantineLasts(configuredPath, h, path, i, j - 1);
      assert Goes(h, j);
      assert Survives(h[j - 1].meta, h[j - 1].pending, h[j].meta, h[j].pending, h[j].seen, path);
    }
  }

  // ---------- The dedupe namespace over runs ----------

  lemma {:induction false} NamespaceIsWriteOnce(configuredPath: Path, h: seq<Snapshot>, i: nat, j: nat)
    requires History(configuredPath, h) && i <= j < |h|
    ensures h[i].meta.namespace.Some? ==>
              h[j].meta.namespace == h[i].meta.namespace && Effective(h[j].meta) == Effective(h[i].meta)
    ensures h[i].meta.runtimeFingerprint.Some? ==> h[i].meta.namespace.Some?
    decreases j
  {
    assert Kept(configuredPath, h[i]);
    if i < j {
      NamespaceIsWriteOnce(configuredPath, h, i, j - 1);
      assert Goes(h, j) && Kept(configuredPath, h[j - 1]) && Kept(configuredPath, h[j]);
    }
  }

  lemma {:induction false} EffectiveBeforeDedicated(configuredPath: Path, h: seq<Snapshot>, i: nat, j: nat)
    requires History(configuredPath, h) && i <= j < |h| && h[j].meta.namespace.None? && Effective(h[i].meta).Some?
    ensures Effective(h[j].meta) == Effective(h[i].meta)
    decreases j
  {
    if i < j {
      NamespaceIsWriteOnce(configuredPath, h, j - 1, j);
      assert Goes(h, j) && Kept(configuredPath, h[j - 1]) && Kept(configuredPath, h[j]);
      EffectiveBeforeDedicated(configuredPath, h, i, j - 1);
    }
  }

  /** Once defined, the effective namespace changes at most once: if step `i` changes it,
      it was the same at every earlier point and is the same at every later one, and that
      step has read an identity other than the enrolled one. */
  lemma EffectiveChangesAtMostOnce(configuredPath: Path, h: seq<Snapshot>, i: nat, k: nat)
    requires History(configuredPath, h) && i + 1 < |h| && k < |h|
    requires Effective(h[i].meta).Some? && Effective(h[i + 1].meta) != Effective(h[i].meta)
    ensures k <= i && Effective(h[k].meta).Some? ==> Effective(h[k].meta) == Effective(h[i].meta)
    ensures k > i ==> Effective(h[k].meta) == Effective(h[i + 1].meta)
    ensures SawAnother(h[i].meta.fingerprint, h[i + 1].seen)
  {
    assert Goes(h, i + 1) && MetaAdvances(h[i].meta, h[i + 1].meta, h[i + 1].seen);
    NamespaceIsWriteOnce(configuredPath, h, i, i + 1);
    if k > i {
      NamespaceIsWriteOnce(configuredPath, h, i + 1, k);
    } else if Effective(h[k].meta).Some? {
      EffectiveBeforeDedicated(configuredPath, h, k, i);
    }
  }
}
