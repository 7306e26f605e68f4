/** ClientCloudManager's cache of clouds, and the loop over a batch of configurations. */
module ClientCloudManager {
  import opened CloudVersions

  class ClientCloudManager {
    var cache: map<nat, Entry>
    var building: multiset<nat>
    var failed: set<nat>
    var builds: seq<(nat, nat)>
    var updates: seq<(nat, bool)>

    function View(): State
      reads this
    {
      State(cache, building, failed, builds, updates)
    }

    constructor (client: nat)
      ensures View() == Start(client) && Inv(View())
    {
      cache := map[client := Entry(0, true, false, true)];
      building, failed, builds, updates := multiset{}, {}, [], [];
      new;
      forall u ensures OneBuild(View(), u) { }
    }

    method CloudConfigs(configs: seq<Config>)
      requires Inv(View())
      modifies this
      ensures View() == Do(old(View()), Batch(configs)) && Inv(View())
    {
      TakeAllKeepsInv(View(), configs);
      for i := 0 to |configs|
        invariant TakeAll(View(), configs[i..]) == TakeAll(old(View()), configs)
      {
        assert configs[i..][1..] == configs[i + 1..];
        var c := configs[i];
        if c.subject !in cache {
          cache := cache[c.subject := Entry(c.version, false, true, false)];
          FinalizeCloudConfig(c);
        } else if !cache[c.subject].finalizing && cache[c.subject].version < c.version {
          cache := cache[c.subject := cache[c.subject].(confirmed := false, version := c.version, finalizing := true)];
          FinalizeCloudConfig(c);
        } else if cache[c.subject].finalizing {
          return;
        } else {
          cache := cache[c.subject := cache[c.subject].(confirmed := true)];
        }
      }
    }

    /** Starts a build, which may be over before the call returns. */
    method FinalizeCloudConfig(c: Config)
      requires c.subject in cache
      modifies this
      ensures View() ==
              var t := old(View()).(
                       building := old(building) + multiset{c.subject},
                       builds := old(builds) + [(c.subject, c.version)]);
              if c.ending.Later? then t else Complete(t, c.subject, c.ending.Built?)
    {
      builds := builds + [(c.subject, c.version)];
      building := building + multiset{c.subject};
      if !c.ending.Later? { BuildCompleted(c.subject, c.ending.Built?); }
    }

    /** The end of a build: a cloud is registered, or the error is only reported; either way the
        update event is emitted. */
    method BuildCompleted(subject: nat, ok: bool)
      requires subject in cache
      modifies this
      ensures View() == Complete(old(View()), subject, ok)
    {
      building := building - multiset{subject};
      if ok {
        cache := cache[subject := cache[subject].(finalizing := false, hasCloud := true)];
      } else {
        failed := failed + {subject};
      }
      updates := updates + [(subject, ok)];
    }
  }
}
