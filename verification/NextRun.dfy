// What one run leaves on disk, and what the run over an edited registry then forgets.
module NextRun {
  import opened Probing
  import opened State
  import opened Schedule
  import opened PrFlow
  import opened ChainDeath
  import opened Sentinel
  import opened History
  import opened EditChain
  import opened Reload

  // A streak is only ever created by an observation and only ever dropped by Prune.
  lemma RescueAddsNoKeys(sm: StateMap, inp: Input, out: Outcome, dead: set<string>, c: string)
    requires c in sm && CollectsExactly(out.flagged, sm, inp.cfg.minFailures, sm.Keys - dead)
    ensures Rescue(sm, out.flagged, out.passed, inp.now)[c].endpoints.Keys == sm[c].endpoints.Keys
  {
    if c in sm.Keys - dead {
      assert Lists(FlagsFor(out.flagged, c), sm[c], FlaggableKeys(sm[c], inp.cfg.minFailures));
    } else {
      assert KeysOf(FlagsFor(out.flagged, c)) == {};
    }
  }

  lemma SavedKeys(disk: StateMap, inp: Input, out: Outcome, disk': StateMap, c: string)
    requires RunsTo(disk, inp, out, disk') && Loaded(inp, c)
    ensures c in AfterUpdate(disk, inp, out)
    ensures Record(disk', c).endpoints.Keys == AfterUpdate(disk, inp, out)[c].endpoints.Keys
  {
    FlippedKeepsEndpoints(disk, inp, out);
    SavedKeepsEndpoints(disk, inp, out);
    RescueAddsNoKeys(AfterFlips(disk, inp, out), inp, out, DetectDead(out.results, EnvOf(inp)), c);
  }

  // After every run the saved keys of a chain are keys of its jobs ...
  lemma SavedKeysAreJobs(disk: StateMap, inp: Input, out: Outcome, disk': StateMap, c: string)
    requires RunsTo(disk, inp, out, disk') && Loaded(inp, c)
    ensures Record(disk', c).endpoints.Keys <= JobKeysOf(AllJobs(inp.chains), c)
  {
    SavedKeys(disk, inp, out, disk', c);
    UpdatedKeys(disk, inp, out);
  }

  // ... and of the keys saved before, exactly those that are no longer jobs are gone.
  lemma OnlyPruneForgets(disk: StateMap, inp: Input, out: Outcome, disk': StateMap, c: string, k: string)
    requires ValidInput(inp) && RunsTo(disk, inp, out, disk') && Loaded(inp, c) && k in Record(disk, c).endpoints
    ensures k in Record(disk', c).endpoints <==> Probed(inp, c, k)
  {
    SavedKeys(disk, inp, out, disk', c);
    UpdatedKeys(disk, inp, out);
    RunObservesOnce(out.results, inp.chains, inp.probe);
    ApplyAllAt(Load(disk, inp.chains), out.results, inp.now, c, k);
  }

  // The run over the edited registry forgets exactly the removed keys among those saved for the chain.
  lemma NextRunForgets(
    disk: StateMap, inp: Input, out: Outcome, disk': StateMap, next: Input, result: Outcome, disk'': StateMap,
    i: nat, name: string, chainId: string, chainType: string, apis: Apis, dead: seq<Flagged>, k: string)
    requires ValidInput(inp) && RunsTo(disk, inp, out, disk') && ValidInput(next) && RunsTo(disk', next, result, disk'')
    requires i < |inp.chains| && inp.chains[i] == LoadChain(name, chainId, chainType, apis)
    requires next.chains == inp.chains[i := LoadChain(name, chainId, chainType, Edited(apis, DeadKeys(dead)))]
    requires k in Record(disk', name).endpoints
    ensures k in Record(disk'', name).endpoints <==> k !in RemovedKeys(dead)
  {
    assert inp.chains[i] in inp.chains && next.chains[i] in next.chains;
    SavedKeysAreJobs(disk, inp, out, disk', name);
    OnlyPruneForgets(disk', next, result, disk'', name, k);
    KeysAfterEdit(inp.chains, i, name, chainId, chainType, apis, dead);
  }
}
