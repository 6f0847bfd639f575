// The hash-fix round trip: load, check, edit, and read the edited file back.
module HashFix {
  import opened Options
  import opened EditAssets

  // The file a hash-fix PR proposes.
  function Proposed(sha: Hash, assets: seq<Asset>): seq<Asset> {
    Fixed(assets, FixesOf(Findings(sha, assets)))
  }

  lemma {:induction false} FixMapMeans(sha: Hash, ms: seq<Mismatch>, base: string, path: string)
    requires forall m :: m in ms ==> m.expected == Expected(sha, m.path)
    ensures (base, path) in FixesOf(ms) <==> exists m :: m in ms && m.base == base && m.path == path
    ensures (base, path) in FixesOf(ms) ==> FixesOf(ms)[(base, path)] == Expected(sha, path)
  {
    if ms != [] {
      var init, last := ms[..|ms| - 1], ms[|ms| - 1];
      assert last in ms;
      FixMapMeans(sha, init, base, path);
      assert forall m :: m in ms <==> m in init || m == last;
    }
  }

  // A fix applies to an asset exactly when that asset's own hash is wrong: keying on the trace
  // path as well keeps it away from other assets that carry the same base.
  lemma FixesApplyToTheWrong(sha: Hash, assets: seq<Asset>, a: Asset)
    requires Decodes(a)
    ensures a in assets ==> (FixKey(a) in FixesOf(Findings(sha, assets)) <==> Wrong(sha, a))
    ensures FixKey(a) in FixesOf(Findings(sha, assets)) ==>
      Wrong(sha, a) && FixesOf(Findings(sha, assets))[FixKey(a)] == Expected(sha, LoaderPath(a))
  {
    var ms := Findings(sha, assets);
    ReadersAgree(a.traces);
    FindingsMean(sha, assets);
    FixMapMeans(sha, ms, a.base, LoaderPath(a));
    if FixKey(a) in FixesOf(ms) {
      var m :| m in ms && m.base == a.base && m.path == LoaderPath(a);
      var b :| b in assets && Wrong(sha, b) && MismatchOf(sha, Loaded(b)) == m;
    }
    if a in assets && Wrong(sha, a) {
      assert MismatchOf(sha, Loaded(a)) in ms;
    }
  }

  lemma FixedIsRight(sha: Hash, assets: seq<Asset>, a: Asset)
    requires a in assets && Decodes(a)
    ensures var b := Fix(a, FixesOf(Findings(sha, assets)));
      && !Wrong(sha, b) && FixKey(b) !in FixesOf(Findings(sha, assets))
      && b.traces == a.traces
  {
    FixesApplyToTheWrong(sha, assets, a);
    FixesApplyToTheWrong(sha, assets, Fix(a, FixesOf(Findings(sha, assets))));
  }

  lemma RightMeansNoFindings(sha: Hash, assets: seq<Asset>)
    requires forall a :: a in assets ==> !Wrong(sha, a)
    ensures Findings(sha, assets) == []
  {
    FindingsMean(sha, assets);
    HeadIsMember(Findings(sha, assets));
  }

  lemma HeadIsMember(ms: seq<Mismatch>)
    ensures ms != [] ==> ms[0] in ms
  {
  }

  // Complete: the edited file still loads, and has no mismatch left.
  lemma FixIsComplete(sha: Hash, assets: seq<Asset>)
    requires Loadable(assets)
    ensures Loadable(Proposed(sha, assets)) && Findings(sha, Proposed(sha, assets)) == []
  {
    var after := Proposed(sha, assets);
    forall b | b in after ensures Decodes(b) && !Wrong(sha, b) {
      var i :| 0 <= i < |after| && after[i] == b;
      FixedIsRight(sha, assets, assets[i]);
    }
    RightMeansNoFindings(sha, after);
  }

  // Idempotent: neither the old fixes nor newly computed ones match anything any more.
  lemma FixIsIdempotent(sha: Hash, assets: seq<Asset>)
    requires Loadable(assets)
    ensures !SomeMatch(Proposed(sha, assets), FixesOf(Findings(sha, assets)))
    ensures !SomeMatch(Proposed(sha, assets), FixesOf(Findings(sha, Proposed(sha, assets))))
  {
    FixIsComplete(sha, assets);
    var after := Proposed(sha, assets);
    forall b | b in after ensures FixKey(b) !in FixesOf(Findings(sha, assets)) {
      var i :| 0 <= i < |after| && after[i] == b;
      FixedIsRight(sha, assets, assets[i]);
    }
  }

  // Minimal: every asset that was right stays as it was, position by position; of a wrong one only
  // its base and the denom units carrying that base change.
  lemma FixIsMinimal(sha: Hash, assets: seq<Asset>, i: nat)
    requires i < |assets| && Loadable(assets)
    ensures var a, b := assets[i], Proposed(sha, assets)[i];
      && (b == a <==> !Wrong(sha, a))
      && b == a.(base := b.base, units := b.units)
      && (Wrong(sha, a) ==> b.base == Expected(sha, LoaderPath(a)))
      && |b.units| == |a.units|
      && forall k :: 0 <= k < |a.units| ==> b.units[k] == a.units[k].(denom := if a.units[k].denom == a.base then b.base else a.units[k].denom)
  {
    FixesApplyToTheWrong(sha, assets, assets[i]);
  }

  // Assets that are not IBC denoms, or carry no trace path, are never touched; every other one ends up
  // with the hash of its path.
  lemma OnlyIbcIsRewritten(sha: Hash, assets: seq<Asset>, i: nat)
    requires i < |assets| && Loadable(assets)
    ensures !("ibc/" <= assets[i].base) || LoaderPath(assets[i]) == "" ==> Proposed(sha, assets)[i] == assets[i]
    ensures "ibc/" <= assets[i].base && LoaderPath(assets[i]) != "" ==>
      Proposed(sha, assets)[i].base == "ibc/" + sha(LoaderPath(assets[i]))
  {
    FixIsMinimal(sha, assets, i);
  }

  ghost predicate BaseListed(a: Asset) {
    exists k :: 0 <= k < |a.units| && a.units[k].denom == a.base
  }

  // The schema's rule that base occurs in denom_units survives the edit.
  lemma BaseStaysListed(sha: Hash, assets: seq<Asset>, i: nat)
    requires i < |assets| && Loadable(assets)
    ensures BaseListed(assets[i]) ==> BaseListed(Proposed(sha, assets)[i])
  {
    FixIsMinimal(sha, assets, i);
    if BaseListed(assets[i]) {
      var k :| 0 <= k < |assets[i].units| && assets[i].units[k].denom == assets[i].base;
      assert Proposed(sha, assets)[i].units[k].denom == Proposed(sha, assets)[i].base;
    }
  }

  // ---------------------------------------------------------------- one chain's flow

  ghost predicate NeedsRepair(sha: Hash, assets: seq<Asset>) {
    Loadable(assets) && exists a :: a in assets && Wrong(sha, a)
  }

  lemma FindingsMeanRepair(sha: Hash, assets: seq<Asset>)
    requires Loadable(assets)
    ensures Findings(sha, assets) != [] <==> NeedsRepair(sha, assets)
    ensures SomeMatch(assets, FixesOf(Findings(sha, assets))) <==> NeedsRepair(sha, assets)
  {
    FindingsMean(sha, assets);
    HeadIsMember(Findings(sha, assets));
    forall a | a in assets ensures FixKey(a) in FixesOf(Findings(sha, assets)) <==> Wrong(sha, a) {
      FixesApplyToTheWrong(sha, assets, a);
    }
  }

  // Load and check one chain: its mismatches, none when the file does not load.
  method CheckChain(sha: Hash, assets: seq<Asset>) returns (mm: seq<Mismatch>)
    ensures mm == if Loadable(assets) then Findings(sha, assets) else []
    ensures mm != [] <==> NeedsRepair(sha, assets)
  {
    var loaded := LoadAssetList(assets);
    if loaded.None? {
      return [];
    }
    FindingsMeanRepair(sha, assets);
    mm := CheckDenomHashes(sha, loaded.value);
  }

  // The file a PR commits: one that differs, exactly when some IBC asset's hash is wrong.
  method RepairAssetList(sha: Hash, assets: seq<Asset>) returns (r: Option<seq<Asset>>)
    ensures r.Some? <==> NeedsRepair(sha, assets)
    ensures r.Some? ==> r.value == Proposed(sha, assets) != assets
  {
    var mm := CheckChain(sha, assets);
    if mm == [] {
      return None;
    }
    r := EditAssetListJSON(assets, mm);
    FindingsMeanRepair(sha, assets);
    ProposedDiffers(sha, assets);
  }

  lemma ProposedDiffers(sha: Hash, assets: seq<Asset>)
    requires NeedsRepair(sha, assets)
    ensures Proposed(sha, assets) != assets
  {
    var a :| a in assets && Wrong(sha, a);
    var i :| 0 <= i < |assets| && assets[i] == a;
    FixIsMinimal(sha, assets, i);
  }
}
