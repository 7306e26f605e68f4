/**
 What a configuration does, told without the branches of the loop: when it starts a build and what
 is cached, announced and updated then; and what the cache says about all builds of a run.
 */
module CloudUpdates {
  import opened CloudVersions

  // ---------------------------------------------------------------- one configuration

  /** The subject is new, or cached with an older version. */
  predicate Newer(s: State, c: Config) {
    c.subject in s.cache ==> s.cache[c.subject].version < c.version
  }

  /** Subject u is as it was. */
  ghost predicate SameFor(s: State, t: State, u: nat) {
    && (u in t.cache <==> u in s.cache) && (u in s.cache ==> t.cache[u] == s.cache[u])
    && t.building[u] == s.building[u] && (u in t.failed <==> u in s.failed)
  }

  /** A configuration that is taken starts a build exactly if it is newer than what is cached, and
      then the cached version is its version; else the entry is confirmed.  A build that ends at once
      is announced, and leaves a cloud or the subject being finalized. */
  lemma BuiltIffNewer(s: State, c: Config)
    requires !Frozen(s, c.subject)
    ensures var t, newer := Take(s, c), Newer(s, c);
            && t.builds == s.builds + (if newer then [(c.subject, c.version)] else [])
            && t.updates == s.updates + (if newer && !c.ending.Later? then [(c.subject, c.ending.Built?)] else [])
            && c.subject in t.cache
            && (newer ==> t.cache[c.subject].version == c.version && !t.cache[c.subject].confirmed)
            && (newer ==> (t.cache[c.subject].finalizing <==> !c.ending.Built?))
            && (!newer ==> c.subject in s.cache && t.cache[c.subject] == s.cache[c.subject].(confirmed := true))
            && (t.cache[c.subject].hasCloud <==>
                || (newer && c.ending.Built?)
                || (c.subject in s.cache && s.cache[c.subject].hasCloud))
            && forall u :: u != c.subject ==> SameFor(s, t, u)
  {
  }

  /** The i-th configuration of a batch is taken in the state the ones before it have left. */
  lemma {:induction false} TakenInTurn(s: State, configs: seq<Config>, i: nat)
    requires i < CutAt(s, configs)
    ensures !Frozen(Prefix(s, configs, i), configs[i].subject)
    ensures Prefix(s, configs, i + 1) == Take(Prefix(s, configs, i), configs[i])
    decreases i
  {
    var t, rest := Take(s, configs[0]), configs[1..];
    PrefixStep(s, configs, i + 1);
    if i == 0 {
      assert configs[..0] == [] && rest[..0] == [];
    } else {
      TakenInTurn(t, rest, i - 1);
      PrefixStep(s, configs, i);
      assert rest[i - 1] == configs[i];
    }
  }

  /** Of a batch exactly the configurations before the cut are taken, and each of them starts a
      build, of its subject and version, exactly if it is newer than what is cached by then. */
  lemma ReachedIsBuiltIffNewer(s: State, configs: seq<Config>, i: nat)
    requires i < CutAt(s, configs)
    ensures var before, after, c := Prefix(s, configs, i), Prefix(s, configs, i + 1), configs[i];
            && after.builds == before.builds + (if Newer(before, c) then [(c.subject, c.version)] else [])
            && c.subject in after.cache
            && (Newer(before, c) ==> after.cache[c.subject].version == c.version)
  {
    TakenInTurn(s, configs, i);
    BuiltIffNewer(Prefix(s, configs, i), configs[i]);
  }

  // ---------------------------------------------------------------- all builds of a run

  function Builds(builds: seq<(nat, nat)>, u: nat): nat {
    if builds == [] then 0
    else Builds(builds[..|builds| - 1], u) + if builds[|builds| - 1].0 == u then 1 else 0
  }

  function Updates(updates: seq<(nat, bool)>, u: nat): nat {
    if updates == [] then 0
    else Updates(updates[..|updates| - 1], u) + if updates[|updates| - 1].0 == u then 1 else 0
  }

  /** The version of the last build of a subject, or that of an entry which was never built. */
  function LastVersion(builds: seq<(nat, nat)>, u: nat): nat {
    if builds == [] then 0
    else if builds[|builds| - 1].0 == u then builds[|builds| - 1].1
    else LastVersion(builds[..|builds| - 1], u)
  }

  /** What the state says about subject u agrees with the builds started and the updates emitted. */
  ghost predicate Told(s: State, client: nat, u: nat) {
    && (u in s.cache <==> u == client || Builds(s.builds, u) > 0)
    && (u in s.cache ==> s.cache[u].version == LastVersion(s.builds, u))
    && (u in s.cache ==> (s.cache[u].hasCloud <==> u == client || (u, true) in s.updates))
    && (u in s.failed <==> (u, false) in s.updates)
    && Builds(s.builds, u) == s.building[u] + Updates(s.updates, u)
  }

  lemma Appended(builds: seq<(nat, nat)>, b: (nat, nat), u: nat)
    ensures Builds(builds + [b], u) == Builds(builds, u) + if b.0 == u then 1 else 0
    ensures LastVersion(builds + [b], u) == if b.0 == u then b.1 else LastVersion(builds, u)
  {
    assert (builds + [b])[..|builds|] == builds;
  }

  lemma Announced(updates: seq<(nat, bool)>, e: (nat, bool), u: nat)
    ensures Updates(updates + [e], u) == Updates(updates, u) + if e.0 == u then 1 else 0
  {
    assert (updates + [e])[..|updates|] == updates;
  }

  lemma CompleteTold(s: State, subject: nat, ok: bool, client: nat, u: nat)
    requires Told(s, client, u) && subject in s.cache && s.building[subject] > 0
    ensures Told(Complete(s, subject, ok), client, u)
  {
    Announced(s.updates, (subject, ok), u);
  }

  lemma StartTold(s: State, c: Config, client: nat, u: nat)
    requires Told(s, client, u) && c.ending.Later?
    ensures Told(Finalize(s, c), client, u)
  {
    Appended(s.builds, (c.subject, c.version), u);
    if u !in s.cache { assert (u, true) !in s.updates by { NoUpdate(s.updates, u, true); } }
  }

  lemma {:induction false} NoUpdate(updates: seq<(nat, bool)>, u: nat, ok: bool)
    requires Updates(updates, u) == 0
    ensures (u, ok) !in updates
  {
    if updates != [] { NoUpdate(updates[..|updates| - 1], u, ok); }
  }

  lemma TakeTold(s: State, c: Config, client: nat, u: nat)
    requires !Frozen(s, c.subject) && Told(s, client, u)
    ensures Told(Take(s, c), client, u)
  {
    var t := Take(s, c);
    if t.builds != s.builds {
      var started := Finalize(s, c.(ending := Later));
      StartTold(s, c.(ending := Later), client, u);
      if !c.ending.Later? { CompleteTold(started, c.subject, c.ending.Built?, client, u); }
    }
  }

  lemma {:induction false} TakeAllTold(s: State, configs: seq<Config>, client: nat, u: nat)
    requires Told(s, client, u)
    ensures Told(TakeAll(s, configs), client, u)
    decreases |configs|
  {
    if configs != [] && !Frozen(s, configs[0].subject) {
      TakeTold(s, configs[0], client, u);
      TakeAllTold(Take(s, configs[0]), configs[1..], client, u);
    }
  }

  /** In every state of every run: a subject is cached exactly if it is the client's own or was
      built, with the version built last; it has a cloud exactly if it is the own one or a build
      succeeded; and each build was announced once, or is still running. */
  lemma {:induction false} CacheTellsHistory(run: seq<State>, steps: seq<Step>, client: nat, i: nat, u: nat)
    requires IsRun(run, steps, client) && i <= |steps|
    ensures Told(run[i], client, u)
  {
    if i > 0 {
      CacheTellsHistory(run, steps, client, i - 1, u);
      assert StepAt(run, steps, i - 1);
      match steps[i - 1]
      case Batch(configs) => TakeAllTold(run[i - 1], configs, client, u);
      case Completed(subject, ok) => CompleteTold(run[i - 1], subject, ok, client, u);
    }
  }
}
