// cmd/sentinel/hashpr.go: the hash flow of whole runs, from the asset-list files to the fixes opened.
module HashFlow {
  import opened Registry
  import opened State
  import opened Openings
  import opened ChainDeath
  import opened Sentinel
  import opened EditAssets
  import opened HashFix

  // The asset-list files of a registry, by chain; a missing file has no assets.
  type Files = map<string, seq<Asset>>

  function FileOf(files: Files, c: string): seq<Asset> {
    if c in files then files[c] else []
  }

  ghost predicate Mismatched(sha: Hash, chains: seq<Chain>, files: Files, c: string) {
    c in NameSet(chains) && NeedsRepair(sha, FileOf(files, c))
  }

  method RunHashChecks(sha: Hash, chains: seq<Chain>, files: Files) returns (all: map<string, seq<Mismatch>>)
    ensures forall c :: c in all <==> Mismatched(sha, chains, files, c)
    ensures forall c :: c in all ==> all[c] == Findings(sha, FileOf(files, c))
  {
    all := map[];
    for i := 0 to |chains|
      invariant forall c :: c in all <==> Mismatched(sha, chains[..i], files, c)
      invariant forall c :: c in all ==> all[c] == Findings(sha, FileOf(files, c))
    {
      var name := chains[i].name;
      assert chains[..i + 1] == chains[..i] + [chains[i]];
      assert NameSet(chains[..i + 1]) == NameSet(chains[..i]) + {name};
      var mm := CheckChain(sha, FileOf(files, name));
      if mm != [] {
        all := all[name := mm];
      }
    }
    assert chains[..|chains|] == chains;
  }

  // A run whose mismatched chains are the ones found in these files.
  ghost predicate ChecksFiles(inp: Input, sha: Hash, files: Files) {
    forall c :: c in inp.mismatched <==> Mismatched(sha, inp.chains, files, c)
  }

  lemma FixedWasWilling(disk: StateMap, inp: Input, out: Outcome, disk': StateMap, c: string)
    requires RunsTo(disk, inp, out, disk') && c in out.fixes
    ensures c in inp.mismatched && c !in DetectDead(out.results, EnvOf(inp))
  {
    OpenedShape(NamesOf(inp.chains),
      WillFix(AfterRemovals(disk, inp, out), inp.mismatched, DetectDead(out.results, EnvOf(inp)), inp.cfg.cooldown, inp.now, inp.acceptsFix),
      inp.cfg.maxHashPRs);
  }

  // Every fix a run opens is for a file the editor changes; the editor's no-op answer cannot arise.
  lemma FixesChangeFiles(disk: StateMap, inp: Input, out: Outcome, disk': StateMap, sha: Hash, files: Files, c: string)
    requires RunsTo(disk, inp, out, disk') && ChecksFiles(inp, sha, files) && c in out.fixes
    ensures Loadable(FileOf(files, c)) && SomeMatch(FileOf(files, c), FixesOf(Findings(sha, FileOf(files, c))))
    ensures Proposed(sha, FileOf(files, c)) != FileOf(files, c)
  {
    FixedWasWilling(disk, inp, out, disk', c);
    FindingsMeanRepair(sha, FileOf(files, c));
    ProposedDiffers(sha, FileOf(files, c));
  }

  // The files once the given fixes are merged.
  function Merged(sha: Hash, files: Files, fixes: seq<string>): Files {
    map c | c in files :: if c in fixes then Proposed(sha, files[c]) else files[c]
  }

  // Merging them takes exactly those chains off the list, and touches no other file.
  lemma MergedNeedsNoRepair(sha: Hash, files: Files, fixes: seq<string>, c: string)
    requires forall d :: d in fixes ==> NeedsRepair(sha, FileOf(files, d))
    ensures c in fixes ==> !NeedsRepair(sha, FileOf(Merged(sha, files, fixes), c))
    ensures c !in fixes ==> FileOf(Merged(sha, files, fixes), c) == FileOf(files, c)
  {
    if c in fixes {
      var after := Proposed(sha, FileOf(files, c));
      FixIsComplete(sha, FileOf(files, c));
      FindingsMeanRepair(sha, after);
      assert FileOf(Merged(sha, files, fixes), c) == if c in files then after else [];
    }
  }

  // A later run over the repaired files opens no fix for any of them.
  lemma FixedIsNotFixedAgain(
    disk: StateMap, inp: Input, out: Outcome, disk': StateMap, sha: Hash, files: Files,
    later: StateMap, next: Input, result: Outcome, later': StateMap, c: string)
    requires RunsTo(disk, inp, out, disk') && ChecksFiles(inp, sha, files) && c in out.fixes
    requires RunsTo(later, next, result, later') && ChecksFiles(next, sha, Merged(sha, files, out.fixes))
    ensures c !in result.fixes
  {
    forall d | d in out.fixes ensures NeedsRepair(sha, FileOf(files, d)) {
      FixedWasWilling(disk, inp, out, disk', d);
    }
    MergedNeedsNoRepair(sha, files, out.fixes, c);
    if c in result.fixes {
      FixedWasWilling(later, next, result, later', c);
      assert false;
    }
  }
}
