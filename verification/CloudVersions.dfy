/**
 Cloud configurations announced by the servers: which of them start the building of a new cloud,
 and what the cached version of a subject says at any time.
 */
module CloudVersions {

  datatype Entry = Entry(version: nat, confirmed: bool, finalizing: bool, hasCloud: bool)

  /** How a build that was started ends: at some later time, or at once. */
  datatype Ending = Later | Built | Failed

  datatype Config = Config(subject: nat, version: nat, ending: Ending)

  /** `building` holds the subjects of the builds in flight, `failed` those of builds that failed,
      `builds` all builds in the order they were started, `updates` the update events emitted, each
      with its subject and whether there is a cloud. */
  datatype State = State(
    cache: map<nat, Entry>, building: multiset<nat>, failed: set<nat>,
    builds: seq<(nat, nat)>, updates: seq<(nat, bool)>)

  datatype Step = Batch(configs: seq<Config>) | Completed(subject: nat, ok: bool)

  /** The cache starts with the client's own cloud. */
  function Start(client: nat): State {
    State(map[client := Entry(0, true, false, true)], multiset{}, {}, [], [])
  }

  predicate Frozen(s: State, subject: nat) {
    subject in s.cache && s.cache[subject].finalizing
  }

  predicate StartsBuild(s: State, c: Config) {
    c.subject !in s.cache || (!s.cache[c.subject].finalizing && s.cache[c.subject].version < c.version)
  }

  function Complete(s: State, subject: nat, ok: bool): State
    requires subject in s.cache
  {
    var t := s.(building := s.building - multiset{subject}, updates := s.updates + [(subject, ok)]);
    if ok then t.(cache := t.cache[subject := t.cache[subject].(finalizing := false, hasCloud := true)])
    else t.(failed := t.failed + {subject})
  }

  function Finalize(s: State, c: Config): State {
    var hasCloud := c.subject in s.cache && s.cache[c.subject].hasCloud;
    var t := s.(cache := s.cache[c.subject := Entry(c.version, false, true, hasCloud)],
                building := s.building + multiset{c.subject}, builds := s.builds + [(c.subject, c.version)]);
    if c.ending.Later? then t else Complete(t, c.subject, c.ending.Built?)
  }

  /** One configuration that is not for a subject being finalized. */
  function Take(s: State, c: Config): State
    requires !Frozen(s, c.subject)
  {
    if StartsBuild(s, c) then Finalize(s, c)
    else s.(cache := s.cache[c.subject := s.cache[c.subject].(confirmed := true)])
  }

  /** A configuration for a subject being finalized ends the processing of its batch. */
  function TakeAll(s: State, configs: seq<Config>): State
    decreases |configs|
  {
    if configs == [] || Frozen(s, configs[0].subject) then s else TakeAll(Take(s, configs[0]), configs[1..])
  }

  predicate Enabled(s: State, step: Step) {
    step.Completed? ==> step.subject in s.cache && s.building[step.subject] > 0
  }

  function Do(s: State, step: Step): State
    requires Enabled(s, step)
  {
    match step
    case Batch(configs) => TakeAll(s, configs)
    case Completed(subject, ok) => Complete(s, subject, ok)
  }

  ghost predicate StepAt(run: seq<State>, steps: seq<Step>, i: nat)
    requires |run| == |steps| + 1 && i < |steps|
  {
    Enabled(run[i], steps[i]) && run[i + 1] == Do(run[i], steps[i])
  }

  ghost predicate IsRun(run: seq<State>, steps: seq<Step>, client: nat) {
    && |run| == |steps| + 1
    && run[0] == Start(client)
    && forall i :: 0 <= i < |steps| ==> StepAt(run, steps, i)
  }

  // ---------------------------------------------------------------- the invariant

  /** A subject is being finalized exactly while its one build runs, or for good once it failed. */
  ghost predicate OneBuild(s: State, subject: nat) {
    && s.building[subject] <= 1
    && (Frozen(s, subject) <==> s.building[subject] == 1 || subject in s.failed)
    && !(s.building[subject] == 1 && subject in s.failed)
  }

  ghost predicate BuildAt(s: State, i: nat)
    requires i < |s.builds|
  {
    s.builds[i].0 in s.cache && s.builds[i].1 <= s.cache[s.builds[i].0].version
  }

  ghost predicate NewerThan(builds: seq<(nat, nat)>, i: nat, j: nat)
    requires i < |builds| && j < |builds|
  {
    builds[i].0 == builds[j].0 ==> builds[i].1 < builds[j].1
  }

  ghost predicate Inv(s: State) {
    && (forall subject :: OneBuild(s, subject))
    && (forall i :: 0 <= i < |s.builds| ==> BuildAt(s, i))
    && (forall i, j :: 0 <= i < j < |s.builds| ==> NewerThan(s.builds, i, j))
  }

  /** What a step may do to the version of a subject. */
  ghost predicate Advances(s: State, t: State, subject: nat) {
    subject in s.cache ==> subject in t.cache && s.cache[subject].version <= t.cache[subject].version
  }

  lemma CompleteKeepsInv(s: State, subject: nat, ok: bool)
    requires Inv(s) && subject in s.cache && s.building[subject] > 0
    ensures Inv(Complete(s, subject, ok))
    ensures forall u :: Advances(s, Complete(s, subject, ok), u)
  {
    var t := Complete(s, subject, ok);
    forall u ensures OneBuild(t, u) {
      assert OneBuild(s, u) && OneBuild(s, subject);
    }
    forall i | 0 <= i < |t.builds| ensures BuildAt(t, i) {
      assert BuildAt(s, i);
    }
    forall i, j | 0 <= i < j < |t.builds| ensures NewerThan(t.builds, i, j) {
      assert NewerThan(s.builds, i, j);
    }
  }

  lemma StartBuildInv(s: State, c: Config)
    requires Inv(s) && StartsBuild(s, c) && c.ending.Later?
    ensures Inv(Finalize(s, c))
    ensures forall u :: Advances(s, Finalize(s, c), u)
  {
    var t := Finalize(s, c);
    forall u ensures OneBuild(t, u) {
      assert OneBuild(s, u) && OneBuild(s, c.subject);
    }
    forall i | 0 <= i < |t.builds| ensures BuildAt(t, i) {
      if i < |s.builds| { assert BuildAt(s, i); }
    }
    forall i, j | 0 <= i < j < |t.builds| ensures NewerThan(t.builds, i, j) {
      if j < |s.builds| { assert NewerThan(s.builds, i, j); } else { assert BuildAt(s, i); }
    }
  }

  lemma ConfirmInv(s: State, c: Config)
    requires Inv(s) && !Frozen(s, c.subject) && !StartsBuild(s, c)
    ensures Inv(Take(s, c))
    ensures forall u :: Advances(s, Take(s, c), u)
  {
    var t := Take(s, c);
    forall u ensures OneBuild(t, u) {
      assert OneBuild(s, u);
    }
    forall i | 0 <= i < |t.builds| ensures BuildAt(t, i) {
      assert BuildAt(s, i);
    }
  }

  lemma TakeKeepsInv(s: State, c: Config)
    requires Inv(s) && !Frozen(s, c.subject)
    ensures Inv(Take(s, c))
    ensures forall u :: Advances(s, Take(s, c), u)
  {
    if StartsBuild(s, c) {
      var d := c.(ending := Later);
      StartBuildInv(s, d);
      if !c.ending.Later? {
        var t := Finalize(s, d);
        assert OneBuild(t, c.subject);
        CompleteKeepsInv(t, c.subject, c.ending.Built?);
        assert Take(s, c) == Complete(t, c.subject, c.ending.Built?);
        forall u ensures Advances(s, Take(s, c), u) {
          assert Advances(s, t, u) && Advances(t, Take(s, c), u);
        }
      }
    } else {
      ConfirmInv(s, c);
    }
  }

  lemma {:induction false} TakeAllKeepsInv(s: State, configs: seq<Config>)
    requires Inv(s)
    ensures Inv(TakeAll(s, configs))
    ensures forall u :: Advances(s, TakeAll(s, configs), u)
    decreases |configs|
  {
    if configs != [] && !Frozen(s, configs[0].subject) {
      var t := Take(s, configs[0]);
      TakeKeepsInv(s, configs[0]);
      TakeAllKeepsInv(t, configs[1..]);
      forall u ensures Advances(s, TakeAll(s, configs), u) {
        assert Advances(s, t, u) && Advances(t, TakeAll(s, configs), u);
      }
    }
  }

  lemma StepKeepsInv(s: State, step: Step)
    requires Inv(s) && Enabled(s, step)
    ensures Inv(Do(s, step))
    ensures forall u :: Advances(s, Do(s, step), u)
  {
    match step
    case Batch(configs) => TakeAllKeepsInv(s, configs);
    case Completed(subject, ok) => CompleteKeepsInv(s, subject, ok);
  }

  /** In every reachable state each subject has at most one build in flight, and its builds so
      far were for ever newer versions, the last of them the cached one or older. */
  lemma {:induction false} EveryReachableStateIsInv(run: seq<State>, steps: seq<Step>, client: nat, i: nat)
    requires IsRun(run, steps, client) && i <= |steps|
    ensures Inv(run[i])
  {
    if i == 0 {
      forall u ensures OneBuild(run[0], u) { }
    } else {
      EveryReachableStateIsInv(run, steps, client, i - 1);
      assert StepAt(run, steps, i - 1);
      StepKeepsInv(run[i - 1], steps[i - 1]);
    }
  }

  /** The cached version of a subject never decreases. */
  lemma {:induction false} VersionsNeverDecrease(
      run: seq<State>, steps: seq<Step>, client: nat, i: nat, j: nat, subject: nat)
    requires IsRun(run, steps, client) && i <= j <= |steps|
    ensures Advances(run[i], run[j], subject)
    decreases j
  {
    if i < j {
      VersionsNeverDecrease(run, steps, client, i, j - 1, subject);
      EveryReachableStateIsInv(run, steps, client, j - 1);
      assert StepAt(run, steps, j - 1);
      StepKeepsInv(run[j - 1], steps[j - 1]);
      assert Advances(run[j - 1], run[j], subject);
    }
  }

  // ---------------------------------------------------------------- what is dropped

  /** The state in which a batch comes to its i-th configuration, if it gets there. */
  function Prefix(s: State, configs: seq<Config>, i: nat): State
    requires i <= |configs|
  {
    TakeAll(s, configs[..i])
  }

  /** How many configurations of a batch are taken before it is cut. */
  function CutAt(s: State, configs: seq<Config>): (n: nat)
    ensures n <= |configs|
    decreases |configs|
  {
    if configs == [] || Frozen(s, configs[0].subject) then 0 else 1 + CutAt(Take(s, configs[0]), configs[1..])
  }

  /** A batch is cut at its first configuration for a subject being finalized. */
  lemma {:induction false} BatchIsCut(s: State, configs: seq<Config>)
    ensures var n := CutAt(s, configs);
            && TakeAll(s, configs) == Prefix(s, configs, n)
            && (n < |configs| ==> Frozen(TakeAll(s, configs), configs[n].subject))
            && (forall i :: 0 <= i < n ==> !Frozen(Prefix(s, configs, i), configs[i].subject))
    decreases |configs|
  {
    var n := CutAt(s, configs);
    if n > 0 {
      var t, rest := Take(s, configs[0]), configs[1..];
      BatchIsCut(t, rest);
      PrefixStep(s, configs, n);
      forall i | 0 <= i < n ensures !Frozen(Prefix(s, configs, i), configs[i].subject) {
        if i > 0 {
          PrefixStep(s, configs, i);
          assert rest[i - 1] == configs[i];
        } else {
          assert configs[..0] == [];
        }
      }
    } else {
      assert configs[..0] == [];
    }
  }

  lemma PrefixStep(s: State, configs: seq<Config>, i: nat)
    requires 0 < i <= |configs| && !Frozen(s, configs[0].subject)
    ensures Prefix(s, configs, i) == Prefix(Take(s, configs[0]), configs[1..], i - 1)
  {
    assert configs[..i][0] == configs[0] && configs[..i][1..] == configs[1..][..i - 1];
  }

  /** Every configuration of a batch is taken exactly if none of them comes to a subject that is
      being finalized by then. */
  lemma BatchIsWholeIff(s: State, configs: seq<Config>)
    ensures CutAt(s, configs) == |configs| <==>
            forall i :: 0 <= i < |configs| ==> !Frozen(Prefix(s, configs, i), configs[i].subject)
  {
    BatchIsCut(s, configs);
    var n := CutAt(s, configs);
    if n < |configs| {
      assert Frozen(Prefix(s, configs, n), configs[n].subject);
    }
  }

  /** The batch if a configuration for a subject being finalized were only passed over. */
  function TakeUncut(s: State, configs: seq<Config>): State
    decreases |configs|
  {
    if configs == [] then s
    else TakeUncut(if Frozen(s, configs[0].subject) then s else Take(s, configs[0]), configs[1..])
  }

  /** The configuration would change something. */
  predicate Effective(s: State, c: Config) {
    !Frozen(s, c.subject) && (StartsBuild(s, c) || !s.cache[c.subject].confirmed)
  }

  /** There are more builds, or the same ones and no confirmation was lost. */
  ghost predicate NotLess(s: State, t: State) {
    && |s.builds| <= |t.builds|
    && (|s.builds| == |t.builds| ==>
          forall u :: u in s.cache && s.cache[u].confirmed ==> u in t.cache && t.cache[u].confirmed)
  }

  lemma TakeNotLess(s: State, c: Config)
    requires !Frozen(s, c.subject)
    ensures NotLess(s, Take(s, c))
    ensures Effective(s, c) ==>
              |Take(s, c).builds| > |s.builds| ||
              (Take(s, c).cache[c.subject].confirmed && c.subject in s.cache && !s.cache[c.subject].confirmed)
    ensures !Effective(s, c) ==> Take(s, c) == s
  {
    if !Effective(s, c) { assert s.cache[c.subject := s.cache[c.subject]] == s.cache; }
  }

  lemma {:induction false} UncutNotLess(s: State, configs: seq<Config>)
    ensures NotLess(s, TakeUncut(s, configs))
    decreases |configs|
  {
    if configs != [] {
      var t := if Frozen(s, configs[0].subject) then s else Take(s, configs[0]);
      if !Frozen(s, configs[0].subject) { TakeNotLess(s, configs[0]); }
      UncutNotLess(t, configs[1..]);
    }
  }

  /** Passing over changes nothing exactly if no configuration is effective. */
  lemma {:induction false} UncutChangesIff(s: State, configs: seq<Config>)
    ensures TakeUncut(s, configs) == s <==> forall k :: 0 <= k < |configs| ==> !Effective(s, configs[k])
    decreases |configs|
  {
    if configs != [] {
      var c, rest := configs[0], configs[1..];
      if Effective(s, c) {
        TakeNotLess(s, c);
        UncutNotLess(Take(s, c), rest);
      } else {
        if !Frozen(s, c.subject) { TakeNotLess(s, c); }
        UncutChangesIff(s, rest);
        assert forall k :: 0 <= k < |rest| ==> rest[k] == configs[k + 1];
        assert forall k :: 0 < k < |configs| ==> configs[k] == rest[k - 1];
      }
    }
  }

  lemma {:induction false} UncutGoesOn(s: State, configs: seq<Config>)
    ensures TakeUncut(s, configs) == TakeUncut(TakeAll(s, configs), configs[CutAt(s, configs)..])
    decreases |configs|
  {
    if configs != [] && !Frozen(s, configs[0].subject) {
      UncutGoesOn(Take(s, configs[0]), configs[1..]);
      assert configs[1..][CutAt(Take(s, configs[0]), configs[1..])..] == configs[CutAt(s, configs)..];
    } else {
      assert configs[0..] == configs;
    }
  }

  /** The cut loses something exactly if a configuration behind it would have changed the state
      the batch ends in, whatever subject it is about. */
  lemma CutLosesIff(s: State, configs: seq<Config>)
    ensures TakeAll(s, configs) != TakeUncut(s, configs) <==>
            exists k :: CutAt(s, configs) <= k < |configs| && Effective(TakeAll(s, configs), configs[k])
  {
    var n, t := CutAt(s, configs), TakeAll(s, configs);
    var rest := configs[n..];
    UncutGoesOn(s, configs);
    UncutChangesIff(t, rest);
    if k :| 0 <= k < |rest| && Effective(t, rest[k]) { assert configs[n + k] == rest[k]; }
    if k :| n <= k < |configs| && Effective(t, configs[k]) { assert rest[k - n] == configs[k]; }
  }

  /** The second batch names a subject being finalized and a new one: the new one is dropped. */
  lemma DroppedWithAnother()
    ensures var s := Do(Start(0), Batch([Config(1, 1, Later)]));
            var t := Do(s, Batch([Config(1, 2, Later), Config(2, 1, Later)]));
            t == s && 1 in s.cache && 2 !in t.cache
  {
    var s0, c := Start(0), Config(1, 1, Later);
    assert [c][1..] == [];
    assert TakeAll(s0, [c]) == TakeAll(Take(s0, c), []) == Take(s0, c);
  }

  /** A build that fails at once, and a newer version that is never built. */
  lemma NeverBuiltAgain()
    ensures var s := Do(Start(0), Batch([Config(1, 1, Failed)]));
            var t := Do(s, Batch([Config(1, 2, Later)]));
            t == s && 1 in t.cache && t.cache[1].version == 1 && t.builds == [(1, 1)]
  {
    var s0, c := Start(0), Config(1, 1, Failed);
    assert [c][1..] == [];
    assert TakeAll(s0, [c]) == TakeAll(Take(s0, c), []) == Take(s0, c);
  }

  ghost predicate StuckAt(s: State, t: State, subject: nat) {
    && subject in t.failed && Frozen(t, subject)
    && subject in s.cache && t.cache[subject] == s.cache[subject]
  }

  lemma TakeKeepsStuck(s: State, c: Config, subject: nat)
    requires Inv(s) && subject in s.failed && Frozen(s, subject) && !Frozen(s, c.subject)
    ensures StuckAt(s, Take(s, c), subject)
  {
  }

  lemma {:induction false} TakeAllKeepsStuck(s: State, configs: seq<Config>, subject: nat)
    requires Inv(s) && subject in s.failed && Frozen(s, subject)
    ensures StuckAt(s, TakeAll(s, configs), subject)
    decreases |configs|
  {
    if configs != [] && !Frozen(s, configs[0].subject) {
      TakeKeepsStuck(s, configs[0], subject);
      TakeKeepsInv(s, configs[0]);
      TakeAllKeepsStuck(Take(s, configs[0]), configs[1..], subject);
    }
  }

  /** After a failed build the subject keeps its entry as it is: no later configuration is built
      for it, and any batch naming it is cut there. */
  lemma {:induction false} FailureIsForGood(
      run: seq<State>, steps: seq<Step>, client: nat, i: nat, j: nat, subject: nat)
    requires IsRun(run, steps, client) && i <= j <= |steps| && subject in run[i].failed
    ensures StuckAt(run[i], run[j], subject)
    decreases j
  {
    EveryReachableStateIsInv(run, steps, client, i);
    assert OneBuild(run[i], subject);
    if i < j {
      FailureIsForGood(run, steps, client, i, j - 1, subject);
      var s := run[j - 1];
      EveryReachableStateIsInv(run, steps, client, j - 1);
      assert StepAt(run, steps, j - 1);
      assert OneBuild(s, subject);
      if steps[j - 1].Batch? { TakeAllKeepsStuck(s, steps[j - 1].configs, subject); }
    }
  }
}
