/** Which modem to read from and which to act on, among those that are there. */
module ModemChoice {
  import opened Wrappers
  import opened ModemIdentity

  /** The configured path, if it is there, cannot be read and is not under suspicion. */
  function ConfiguredAction(candidates: seq<Sighting>, configuredPath: Path, mismatch: bool): Option<Path> {
    if !mismatch && Sighting(configuredPath, None) in candidates then Some(configuredPath) else None
  }

  function Matching(candidates: seq<Sighting>, f: Fingerprint): (paths: seq<Path>)
    ensures forall p :: p in paths <==> Sighting(p, Some(f)) in candidates
    decreases |candidates|
  {
    if candidates == [] then []
    else
      var (init, last) := (candidates[..|candidates| - 1], candidates[|candidates| - 1]);
      assert candidates == init + [last];
      Matching(init, f) + (if last.identity == Some(f) then [last.path] else [])
  }

  /** The first candidate with this identity, and whether there is another one. */
  method MatchCandidates(candidates: seq<Sighting>, f: Fingerprint) returns (matched: Option<Path>, ambiguous: bool)
    ensures matched == (if Matching(candidates, f) == [] then None else Some(Matching(candidates, f)[0]))
    ensures ambiguous <==> |Matching(candidates, f)| > 1
    ensures matched.Some? ==> Sighting(matched.value, Some(f)) in candidates
    ensures matched.None? ==> forall c :: c in candidates ==> c.identity != Some(f)
  {
    matched, ambiguous := None, false;
    for i := 0 to |candidates|
      invariant matched == (if Matching(candidates[..i], f) == [] then None else Some(Matching(candidates[..i], f)[0]))
      invariant ambiguous <==> |Matching(candidates[..i], f)| > 1
    {
      assert candidates[..i + 1][..i] == candidates[..i];
      if candidates[i].identity == Some(f) {
        if matched.None? { matched := Some(candidates[i].path); } else { ambiguous := true; }
      }
    }
    assert candidates[..|candidates|] == candidates;
    forall c | matched.None? && c in candidates ensures c.identity != Some(f) {
      assert Sighting(c.path, Some(f)) !in candidates;
    }
  }

  /** Which targets the candidates give. `stored` is the enrolled fingerprint and `runtime`
      the one under which a modem was read from before. */
  function Choose(
      candidates: seq<Sighting>, configuredPath: Path, mismatch: bool,
      stored: Option<Fingerprint>, runtime: Option<Fingerprint>): Targets
  {
    var action := ConfiguredAction(candidates, configuredPath, mismatch);
    var enrolled := if stored.Some? then Matching(candidates, stored.value) else [];
    var observed := if runtime.Some? then Matching(candidates, runtime.value) else [];
    if |enrolled| == 1 then Verified(enrolled[0])
    else if |enrolled| > 1 || |observed| > 1 then ActionOnly(action)
    else if |observed| == 1 then Targets(Some(observed[0]), action)
    else if |candidates| != 1 then ActionOnly(action)
    else
      var only := candidates[0];
      if only.path == configuredPath && !mismatch && (only.identity.None? || stored.None?) then Verified(only.path)
      else RuntimeOnly(only.path)
  }

  /** A modem is read from only if it is recognised or is the only one, and acted on only if
      it is the enrolled one, or the configured one while nothing contradicts it. */
  lemma ChoiceIsJustified(
      candidates: seq<Sighting>, configuredPath: Path, mismatch: bool,
      stored: Option<Fingerprint>, runtime: Option<Fingerprint>)
    ensures var t := Choose(candidates, configuredPath, mismatch, stored, runtime);
      && (t.runtime.Some? ==>
            (exists c :: c in candidates && c.path == t.runtime.value && c.identity.Some?
                         && (c.identity == stored || c.identity == runtime))
            || (|candidates| == 1 && candidates[0].path == t.runtime.value))
      && (t.action.Some? ==>
            (stored.Some? && Sighting(t.action.value, stored) in candidates)
            || (t.action.value == configuredPath && !mismatch
                && (Sighting(configuredPath, None) in candidates || stored.None?)))
      && (stored.Some? && |Matching(candidates, stored.value)| == 1 ==>
            t == Verified(Matching(candidates, stored.value)[0]))
      && (stored.Some? && |Matching(candidates, stored.value)| > 1 ==> t.runtime.None?)
  {
    if stored.Some? && Matching(candidates, stored.value) != [] {
      var p := Matching(candidates, stored.value)[0];
      assert Sighting(p, stored) in candidates;
    }
    if runtime.Some? && Matching(candidates, runtime.value) != [] {
      var p := Matching(candidates, runtime.value)[0];
      assert Sighting(p, runtime) in candidates;
    }
  }

  // ---------- The choice, in terms of what was read ----------

  /** Nobody shows this identity, or there is none to look for. */
  predicate Nowhere(candidates: seq<Sighting>, identity: Option<Fingerprint>) {
    identity.None? || forall c :: c in candidates ==> c.identity != identity
  }

  /** Exactly one place of the listing shows this identity, and it is `path`. */
  ghost predicate OnlyAt(candidates: seq<Sighting>, identity: Option<Fingerprint>, path: Path) {
    && identity.Some?
    && exists i :: 0 <= i < |candidates| && candidates[i] == Sighting(path, identity)
         && forall j :: 0 <= j < |candidates| && candidates[j].identity == identity ==> j == i
  }

  predicate Alone(candidates: seq<Sighting>, path: Path) {
    |candidates| == 1 && candidates[0].path == path
  }

  /** Messages are read from the enrolled modem; else from the one they were read from before;
      else, if neither is there, from the only one. */
  ghost predicate ReadsFrom(
      candidates: seq<Sighting>, stored: Option<Fingerprint>, runtime: Option<Fingerprint>, path: Path)
  {
    || OnlyAt(candidates, stored, path)
    || (Nowhere(candidates, stored)
        && (OnlyAt(candidates, runtime, path) || (Nowhere(candidates, runtime) && Alone(candidates, path))))
  }

  /** The configured modem, if nothing speaks against it: it cannot be read, or it is the only
      one and none was ever enrolled. */
  ghost predicate Unsuspected(
      candidates: seq<Sighting>, configuredPath: Path, mismatch: bool,
      stored: Option<Fingerprint>, runtime: Option<Fingerprint>)
  {
    && !mismatch
    && (Sighting(configuredPath, None) in candidates
        || (stored.None? && Nowhere(candidates, runtime) && Alone(candidates, configuredPath)))
  }

  /** Actions go to the enrolled modem; else to the configured one while it is unsuspected. */
  ghost predicate ActsOn(
      candidates: seq<Sighting>, configuredPath: Path, mismatch: bool,
      stored: Option<Fingerprint>, runtime: Option<Fingerprint>, path: Path)
  {
    || OnlyAt(candidates, stored, path)
    || ((forall p: Path :: !OnlyAt(candidates, stored, p)) && path == configuredPath
        && Unsuspected(candidates, configuredPath, mismatch, stored, runtime))
  }

  ghost predicate Counted(candidates: seq<Sighting>, f: Fingerprint) {
    && (Matching(candidates, f) == [] <==> Nowhere(candidates, Some(f)))
    && forall p: Path :: Matching(candidates, f) == [p] <==> OnlyAt(candidates, Some(f), p)
  }

  lemma CountedStep(init: seq<Sighting>, last: Sighting, f: Fingerprint)
    requires Counted(init, f)
    ensures Counted(init + [last], f)
  {
    var all := init + [last];
    assert all[..|all| - 1] == init;
    forall p: Path ensures Matching(all, f) == [p] <==> OnlyAt(all, Some(f), p) {
      assert Matching(init, f) == [p] <==> OnlyAt(init, Some(f), p);
    }
  }

  lemma {:induction false} MatchingIsExact(candidates: seq<Sighting>, f: Fingerprint)
    ensures Counted(candidates, f)
    decreases |candidates|
  {
    if candidates != [] {
      var (init, last) := (candidates[..|candidates| - 1], candidates[|candidates| - 1]);
      MatchingIsExact(init, f);
      CountedStep(init, last, f);
      assert candidates == init + [last];
    }
  }

  function Showing(candidates: seq<Sighting>, identity: Option<Fingerprint>): seq<Path> {
    if identity.Some? then Matching(candidates, identity.value) else []
  }

  lemma ShowingIsExact(candidates: seq<Sighting>, identity: Option<Fingerprint>, path: Path)
    ensures var m := Showing(candidates, identity);
      && (m == [] <==> Nowhere(candidates, identity))
      && (OnlyAt(candidates, identity, path) <==> |m| == 1 && m[0] == path)
  {
    if identity.Some? {
      MatchingIsExact(candidates, identity.value);
      var m := Matching(candidates, identity.value);
      assert m == [path] <==> |m| == 1 && m[0] == path;
    }
  }

  lemma ReadsFromExactly(
      candidates: seq<Sighting>, configuredPath: Path, mismatch: bool,
      stored: Option<Fingerprint>, runtime: Option<Fingerprint>, path: Path)
    ensures Choose(candidates, configuredPath, mismatch, stored, runtime).runtime == Some(path)
            <==> ReadsFrom(candidates, stored, runtime, path)
  {
    ShowingIsExact(candidates, stored, path);
    ShowingIsExact(candidates, runtime, path);
  }

  /** The enrolled modem is not there, or not only once. */
  lemma FallsBackExactly(
      candidates: seq<Sighting>, configuredPath: Path, mismatch: bool,
      stored: Option<Fingerprint>, runtime: Option<Fingerprint>, path: Path)
    requires |Showing(candidates, stored)| != 1
    ensures Choose(candidates, configuredPath, mismatch, stored, runtime).action == Some(path)
            <==> path == configuredPath && Unsuspected(candidates, configuredPath, mismatch, stored, runtime)
  {
    ShowingIsExact(candidates, stored, path);
    ShowingIsExact(candidates, runtime, path);
  }

  /** Both targets are exactly those that the readings call for. */
  lemma ChoiceExactly(
      candidates: seq<Sighting>, configuredPath: Path, mismatch: bool,
      stored: Option<Fingerprint>, runtime: Option<Fingerprint>, path: Path)
    ensures var t := Choose(candidates, configuredPath, mismatch, stored, runtime);
      && (t.runtime == Some(path) <==> ReadsFrom(candidates, stored, runtime, path))
      && (t.action == Some(path) <==> ActsOn(candidates, configuredPath, mismatch, stored, runtime, path))
  {
    ReadsFromExactly(candidates, configuredPath, mismatch, stored, runtime, path);
    ShowingIsExact(candidates, stored, path);
    if |Showing(candidates, stored)| == 1 {
      ShowingIsExact(candidates, stored, Showing(candidates, stored)[0]);
    } else {
      FallsBackExactly(candidates, configuredPath, mismatch, stored, runtime, path);
      forall p: Path ensures !OnlyAt(candidates, stored, p) { ShowingIsExact(candidates, stored, p); }
    }
  }
}
