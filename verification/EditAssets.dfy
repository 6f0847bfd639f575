// IBC denom hashes: internal/registry/assetlist.go, internal/checks/ibc_hash.go and the asset-list
// editor of internal/github/pr.go, over the JSON tree of one assetlist.json.
module EditAssets {
  import opened Options
  import opened GoStrings

  // A JSON value with its members by name; raw is the text it was read from.
  datatype Json =
    | Null
    | Bool(b: bool)
    | Num(raw: string)
    | Str(s: string)
    | Arr(items: seq<Json>, raw: string)
    | Obj(members: map<string, Json>, raw: string)

  datatype Unit = Unit(denom: string, other: string)

  datatype Asset = Asset(name: string, base: string, traces: Option<Json>, units: seq<Unit>, other: string)

  // What the loader decodes a trace into; path is empty when the trace has none.
  datatype Trace = Trace(kind: string, path: string)

  datatype IBCAsset = IBCAsset(name: string, base: string, path: string)

  datatype Mismatch = Mismatch(name: string, base: string, expected: string, path: string)

  // SHA-256 in upper-case hexadecimal.
  type Hash = string -> string

  const IBC: string := "ibc/"

  function Expected(sha: Hash, path: string): string {
    IBC + sha(path)
  }

  // ---------------------------------------------------------------- encoding/json, typed

  function Member(v: Json, key: string): Option<Json> {
    if v.Obj? && key in v.members then Some(v.members[key]) else None
  }

  // A string field: absent and null leave it empty, any other type is an error.
  function DecodeString(v: Option<Json>): Option<string> {
    match v
    case None => Some("")
    case Some(j) => if j.Null? then Some("") else if j.Str? then Some(j.s) else None
  }

  // The path inside a trace's chain object.
  function DecodeChain(v: Option<Json>): Option<string> {
    match v
    case None => Some("")
    case Some(j) => if j.Null? then Some("") else if j.Obj? then DecodeString(Member(j, "path")) else None
  }

  function DecodeTrace(v: Json): Option<Trace> {
    if v.Null? then Some(Trace("", ""))
    else if !v.Obj? then None
    else
      var kind, path := DecodeString(Member(v, "type")), DecodeChain(Member(v, "chain"));
      if kind.Some? && path.Some? then Some(Trace(kind.value, path.value)) else None
  }

  function DecodeItems(items: seq<Json>): Option<seq<Trace>> {
    if items == [] then Some([])
    else
      var before, last := DecodeItems(items[..|items| - 1]), DecodeTrace(items[|items| - 1]);
      if before.Some? && last.Some? then Some(before.value + [last.value]) else None
  }

  function DecodeTraces(v: Option<Json>): Option<seq<Trace>> {
    match v
    case None => Some([])
    case Some(j) => if j.Null? then Some([]) else if j.Arr? then DecodeItems(j.items) else None
  }

  // ---------------------------------------------------------------- gjson, untyped

  // Result.String: whatever is there, as text.
  function Text(v: Option<Json>): string {
    match v
    case None => ""
    case Some(j) =>
      match j
      case Null => ""
      case Bool(b) => if b then "true" else "false"
      case Num(raw) => raw
      case Str(s) => s
      case Arr(_, raw) => raw
      case Obj(_, raw) => raw
  }

  // Result.Array: nothing for an absent or null value, the value itself when it is no array.
  function Elements(v: Option<Json>): seq<Json> {
    match v
    case None => []
    case Some(j) => if j.Null? then [] else if j.Arr? then j.items else [j]
  }

  // Get("chain.path").String() on one trace.
  function ChainPath(trace: Json): string {
    match Member(trace, "chain")
    case None => ""
    case Some(chain) => Text(Member(chain, "path"))
  }

  // ---------------------------------------------------------------- trace paths

  function LastPath(traces: seq<Trace>): string {
    if traces == [] then ""
    else if traces[|traces| - 1].path != "" then traces[|traces| - 1].path
    else LastPath(traces[..|traces| - 1])
  }

  function LastText(items: seq<Json>): string {
    if items == [] then ""
    else if ChainPath(items[|items| - 1]) != "" then ChainPath(items[|items| - 1])
    else LastText(items[..|items| - 1])
  }

  // lastTracePath in internal/registry scans the decoded traces from the end ...
  method LastTracePath(traces: seq<Trace>) returns (path: string)
    ensures path == LastPath(traces)
  {
    var i := |traces| - 1;
    assert traces[..|traces|] == traces;
    while i >= 0
      invariant -1 <= i < |traces|
      invariant LastPath(traces) == LastPath(traces[..i + 1])
    {
      assert traces[..i + 1][..i] == traces[..i];
      if traces[i].path != "" {
        return traces[i].path;
      }
      i := i - 1;
    }
    return "";
  }

  // ... its namesake in internal/github the JSON values, as text.
  method LastTracePathJSON(traces: Option<Json>) returns (path: string)
    ensures path == LastText(Elements(traces))
  {
    var arr := Elements(traces);
    var i := |arr| - 1;
    assert arr[..|arr|] == arr;
    while i >= 0
      invariant -1 <= i < |arr|
      invariant LastText(arr) == LastText(arr[..i + 1])
    {
      assert arr[..i + 1][..i] == arr[..i];
      var p := ChainPath(arr[i]);
      if p != "" {
        return p;
      }
      i := i - 1;
    }
    return "";
  }

  lemma {:induction false} ItemsAgree(items: seq<Json>)
    requires DecodeItems(items).Some?
    ensures LastText(items) == LastPath(DecodeItems(items).value)
  {
    if items != [] {
      var init, last := items[..|items| - 1], items[|items| - 1];
      ItemsAgree(init);
      TracesAgree(last);
      var traces := DecodeItems(items).value;
      assert traces[..|traces| - 1] == DecodeItems(init).value;
    }
  }

  lemma TracesAgree(trace: Json)
    requires DecodeTrace(trace).Some?
    ensures ChainPath(trace) == DecodeTrace(trace).value.path
  {
  }

  // On every file the loader accepts, the two functions resolve the same path.
  lemma ReadersAgree(traces: Option<Json>)
    requires DecodeTraces(traces).Some?
    ensures LastText(Elements(traces)) == LastPath(DecodeTraces(traces).value)
  {
    if traces.Some? && traces.value.Arr? {
      ItemsAgree(traces.value.items);
    }
  }

  // A member the loader reads as a string may be missing, null or a string.
  predicate Textual(v: Json, key: string) {
    v.Obj? && (key in v.members ==> v.members[key].Null? || v.members[key].Str?)
  }

  predicate TraceIsValid(t: Json) {
    t.Null? ||
    (Textual(t, "type") && ("chain" in t.members ==> t.members["chain"].Null? || Textual(t.members["chain"], "path")))
  }

  lemma TraceDecodes(t: Json)
    ensures DecodeTrace(t).Some? <==> TraceIsValid(t)
  {
  }

  lemma {:induction false} ItemsDecode(items: seq<Json>)
    ensures DecodeItems(items).Some? <==> forall t :: t in items ==> TraceIsValid(t)
  {
    if items != [] {
      var init, last := items[..|items| - 1], items[|items| - 1];
      ItemsDecode(init);
      TraceDecodes(last);
      assert forall t :: t in items <==> t in init || t == last;
    }
  }

  // Which traces the loader accepts: missing, null, or an array of nulls and objects of that shape.
  lemma TracesDecode(traces: Option<Json>)
    ensures DecodeTraces(traces).Some? <==>
      traces == None || traces.value.Null? || (traces.value.Arr? && forall t :: t in traces.value.items ==> TraceIsValid(t))
  {
    if traces.Some? && traces.value.Arr? {
      ItemsDecode(traces.value.items);
    }
  }

  // On others they need not: a numeric path is text to the editor and an error to the loader.
  lemma NumberIsTextToTheEditor(raw: string)
    requires raw != ""
    ensures
      var trace := Obj(map["chain" := Obj(map["path" := Num(raw)], "")], "");
      var traces := Some(Arr([trace], ""));
      DecodeTraces(traces).None? && LastText(Elements(traces)) == raw
  {
    var chain := Obj(map["path" := Num(raw)], "");
    var trace := Obj(map["chain" := chain], "");
    assert DecodeTrace(trace).None?;
    assert ChainPath(trace) == raw;
    assert [trace][..0] == [];
  }

  lemma {:induction false} LastPathMeans(traces: seq<Trace>)
    ensures LastPath(traces) == "" <==> forall t :: t in traces ==> t.path == ""
    ensures LastPath(traces) != "" ==>
      exists i :: 0 <= i < |traces| && traces[i].path == LastPath(traces) && forall j :: i < j < |traces| ==> traces[j].path == ""
  {
    if traces != [] {
      var init, last := traces[..|traces| - 1], traces[|traces| - 1];
      if last.path == "" {
        LastPathMeans(init);
        assert forall t :: t in traces <==> t in init || t == last;
        if LastPath(init) != "" {
          var i :| 0 <= i < |init| && init[i].path == LastPath(init) && forall j :: i < j < |init| ==> init[j].path == "";
          assert traces[i].path == LastPath(traces) && forall j :: i < j < |traces| ==> traces[j].path == "";
        }
      } else {
        assert last in traces;
      }
    }
  }

  // ---------------------------------------------------------------- load and check

  predicate Decodes(a: Asset) {
    DecodeTraces(a.traces).Some?
  }

  // The file unmarshals; LoadAssetList fails on any other.
  predicate Loadable(assets: seq<Asset>) {
    forall a :: a in assets ==> Decodes(a)
  }

  datatype RawAsset = RawAsset(name: string, base: string, traces: seq<Trace>)

  function RawOf(a: Asset): RawAsset {
    RawAsset(a.name, a.base, if Decodes(a) then DecodeTraces(a.traces).value else [])
  }

  function Unmarshal(assets: seq<Asset>): Option<seq<RawAsset>> {
    if Loadable(assets) then Some(seq(|assets|, i requires 0 <= i < |assets| => RawOf(assets[i]))) else None
  }

  // The path the loader resolves, and the one the editor does.
  function LoaderPath(a: Asset): string {
    LastPath(RawOf(a).traces)
  }

  function EditorPath(a: Asset): string {
    LastText(Elements(a.traces))
  }

  predicate IsIBC(a: Asset) {
    HasPrefix(a.base, IBC) && LoaderPath(a) != ""
  }

  function Loaded(a: Asset): IBCAsset {
    IBCAsset(a.name, a.base, LoaderPath(a))
  }

  function LoadedAll(assets: seq<Asset>): seq<IBCAsset> {
    if assets == [] then []
    else
      var before, a := LoadedAll(assets[..|assets| - 1]), assets[|assets| - 1];
      if IsIBC(a) then before + [Loaded(a)] else before
  }

  method LoadAssetList(assets: seq<Asset>) returns (r: Option<seq<IBCAsset>>)
    ensures r == if Loadable(assets) then Some(LoadedAll(assets)) else None
  {
    var raw := Unmarshal(assets);
    if raw.None? {
      return None;
    }
    var loaded := [];
    for i := 0 to |raw.value|
      invariant loaded == LoadedAll(assets[..i])
    {
      assert assets[..i + 1][..i] == assets[..i];
      var a := raw.value[i];
      if !HasPrefix(a.base, IBC) {
        continue;
      }
      var tp := LastTracePath(a.traces);
      if tp == "" {
        continue;
      }
      loaded := loaded + [IBCAsset(a.name, a.base, tp)];
    }
    assert assets[..|assets|] == assets;
    return Some(loaded);
  }

  function MismatchOf(sha: Hash, a: IBCAsset): Mismatch {
    Mismatch(a.name, a.base, Expected(sha, a.path), a.path)
  }

  function Mismatches(sha: Hash, loaded: seq<IBCAsset>): seq<Mismatch> {
    if loaded == [] then []
    else
      var before, a := Mismatches(sha, loaded[..|loaded| - 1]), loaded[|loaded| - 1];
      if a.base != Expected(sha, a.path) then before + [MismatchOf(sha, a)] else before
  }

  method CheckDenomHashes(sha: Hash, loaded: seq<IBCAsset>) returns (out: seq<Mismatch>)
    ensures out == Mismatches(sha, loaded)
  {
    out := [];
    for i := 0 to |loaded|
      invariant out == Mismatches(sha, loaded[..i])
    {
      assert loaded[..i + 1][..i] == loaded[..i];
      var a := loaded[i];
      var expected := Expected(sha, a.path);
      if a.base != expected {
        out := out + [Mismatch(a.name, a.base, expected, a.path)];
      }
    }
    assert loaded[..|loaded|] == loaded;
  }

  // The findings of one file, as the hash-fix flow computes them.
  function Findings(sha: Hash, assets: seq<Asset>): seq<Mismatch> {
    Mismatches(sha, LoadedAll(assets))
  }

  predicate Wrong(sha: Hash, a: Asset) {
    IsIBC(a) && a.base != Expected(sha, LoaderPath(a))
  }

  lemma {:induction false} LoadedMembers(assets: seq<Asset>)
    ensures forall x :: x in LoadedAll(assets) <==> exists a :: a in assets && IsIBC(a) && Loaded(a) == x
  {
    if assets != [] {
      var init, last := assets[..|assets| - 1], assets[|assets| - 1];
      LoadedMembers(init);
      assert forall a :: a in assets <==> a in init || a == last;
    }
  }

  lemma {:induction false} MismatchMembers(sha: Hash, loaded: seq<IBCAsset>)
    ensures forall m :: m in Mismatches(sha, loaded) <==>
      exists x :: x in loaded && x.base != Expected(sha, x.path) && MismatchOf(sha, x) == m
  {
    if loaded != [] {
      var init, last := loaded[..|loaded| - 1], loaded[|loaded| - 1];
      MismatchMembers(sha, init);
      assert forall x :: x in loaded <==> x in init || x == last;
    }
  }

  // The findings are exactly the wrong assets.
  lemma FindingsMean(sha: Hash, assets: seq<Asset>)
    ensures forall m :: m in Findings(sha, assets) <==> exists a :: a in assets && Wrong(sha, a) && MismatchOf(sha, Loaded(a)) == m
  {
    LoadedMembers(assets);
    MismatchMembers(sha, LoadedAll(assets));
    forall m ensures m in Findings(sha, assets) <==> exists a :: a in assets && Wrong(sha, a) && MismatchOf(sha, Loaded(a)) == m {
      if m in Findings(sha, assets) {
        var x :| x in LoadedAll(assets) && x.base != Expected(sha, x.path) && MismatchOf(sha, x) == m;
        var a :| a in assets && IsIBC(a) && Loaded(a) == x;
        assert Wrong(sha, a);
      }
      if a :| a in assets && Wrong(sha, a) && MismatchOf(sha, Loaded(a)) == m {
        assert Loaded(a) in LoadedAll(assets);
      }
    }
  }

  // ---------------------------------------------------------------- the editor

  // (wrong base, trace path) -> correct base; a later fix for the same key wins.
  type FixMap = map<(string, string), string>

  function FixesOf(fixes: seq<Mismatch>): FixMap {
    if fixes == [] then map[]
    else
      var f := fixes[|fixes| - 1];
      FixesOf(fixes[..|fixes| - 1])[(f.base, f.path) := f.expected]
  }

  function FixKey(a: Asset): (string, string) {
    (a.base, EditorPath(a))
  }

  function Rename(u: Unit, wrong: string, right: string): Unit {
    if u.denom == wrong then u.(denom := right) else u
  }

  function RenameAll(units: seq<Unit>, wrong: string, right: string): (r: seq<Unit>)
    ensures |r| == |units|
    ensures forall i :: 0 <= i < |units| ==> r[i] == Rename(units[i], wrong, right)
  {
    seq(|units|, i requires 0 <= i < |units| => Rename(units[i], wrong, right))
  }

  function Fix(a: Asset, fixes: FixMap): Asset {
    if FixKey(a) in fixes then
      a.(base := fixes[FixKey(a)], units := RenameAll(a.units, a.base, fixes[FixKey(a)]))
    else a
  }

  function Fixed(assets: seq<Asset>, fixes: FixMap): (r: seq<Asset>)
    ensures |r| == |assets|
    ensures forall i :: 0 <= i < |assets| ==> r[i] == Fix(assets[i], fixes)
  {
    seq(|assets|, i requires 0 <= i < |assets| => Fix(assets[i], fixes))
  }

  datatype IndexFix = IndexFix(idx: nat, expected: string, units: seq<nat>)

  // ixs lists exactly the positions of the denom units named base.
  ghost predicate ListsUnits(ixs: seq<nat>, units: seq<Unit>, base: string) {
    forall i: nat :: i in ixs <==> i < |units| && units[i].denom == base
  }

  method CollectUnits(units: seq<Unit>, base: string) returns (ixs: seq<nat>)
    ensures ListsUnits(ixs, units, base)
  {
    ixs := [];
    for i := 0 to |units|
      invariant ListsUnits(ixs, units[..i], base)
    {
      if units[i].denom == base {
        ixs := ixs + [i];
      }
    }
    assert units[..|units|] == units;
  }

  ghost predicate Describes(f: IndexFix, assets: seq<Asset>, fixes: FixMap) {
    && f.idx < |assets| && FixKey(assets[f.idx]) in fixes
    && f.expected == fixes[FixKey(assets[f.idx])]
    && ListsUnits(f.units, assets[f.idx].units, assets[f.idx].base)
  }

  // toFix describes exactly the matching assets among the first n, in order.
  ghost predicate CollectedFixes(toFix: seq<IndexFix>, assets: seq<Asset>, fixes: FixMap, n: nat)
    requires n <= |assets|
  {
    && (forall k :: 0 <= k < |toFix| ==> Describes(toFix[k], assets, fixes) && toFix[k].idx < n)
    && (forall k, l :: 0 <= k < l < |toFix| ==> toFix[k].idx < toFix[l].idx)
    && (forall i :: 0 <= i < n && FixKey(assets[i]) in fixes ==> exists k :: 0 <= k < |toFix| && toFix[k].idx == i)
  }

  method BuildFixMap(fixes: seq<Mismatch>) returns (m: FixMap)
    ensures m == FixesOf(fixes)
  {
    m := map[];
    for i := 0 to |fixes|
      invariant m == FixesOf(fixes[..i])
    {
      assert fixes[..i + 1][..i] == fixes[..i];
      m := m[(fixes[i].base, fixes[i].path) := fixes[i].expected];
    }
    assert fixes[..|fixes|] == fixes;
  }

  method CollectFixes(assets: seq<Asset>, fixes: FixMap) returns (toFix: seq<IndexFix>)
    ensures CollectedFixes(toFix, assets, fixes, |assets|)
  {
    toFix := [];
    for i := 0 to |assets|
      invariant CollectedFixes(toFix, assets, fixes, i)
    {
      var base := assets[i].base;
      var path := LastTracePathJSON(assets[i].traces);
      if (base, path) !in fixes {
        continue;
      }
      var units := CollectUnits(assets[i].units, base);
      ghost var before := toFix;
      toFix := toFix + [IndexFix(i, fixes[(base, path)], units)];
      CollectedOneMore(before, toFix[|before|], assets, fixes, i);
    }
  }

  lemma CollectedOneMore(before: seq<IndexFix>, f: IndexFix, assets: seq<Asset>, fixes: FixMap, i: nat)
    requires i < |assets| && CollectedFixes(before, assets, fixes, i) && Describes(f, assets, fixes) && f.idx == i
    ensures CollectedFixes(before + [f], assets, fixes, i + 1)
  {
    var after := before + [f];
    forall j | 0 <= j < i + 1 && FixKey(assets[j]) in fixes ensures exists k :: 0 <= k < |after| && after[k].idx == j {
      if j < i {
        var k :| 0 <= k < |before| && before[k].idx == j;
        assert after[k].idx == j;
      } else {
        assert after[|before|].idx == j;
      }
    }
  }

  // Rewrite one asset: its base, then the collected denom units one by one.
  method RewriteAsset(a: Asset, f: IndexFix) returns (b: Asset)
    requires ListsUnits(f.units, a.units, a.base)
    ensures b == a.(base := f.expected, units := RenameAll(a.units, a.base, f.expected))
  {
    b := a.(base := f.expected);
    var units := a.units;
    for k := 0 to |f.units|
      invariant |units| == |a.units|
      invariant forall i :: 0 <= i < |units| ==>
        units[i] == if i in f.units[..k] then a.units[i].(denom := f.expected) else a.units[i]
    {
      var u := f.units[k];
      assert u in f.units;
      assert f.units[..k + 1] == f.units[..k] + [u];
      units := units[u := units[u].(denom := f.expected)];
    }
    assert f.units[..|f.units|] == f.units;
    forall i | 0 <= i < |units| ensures units[i] == Rename(a.units[i], a.base, f.expected) {
      assert i in f.units <==> a.units[i].denom == a.base;
    }
    assert units == RenameAll(a.units, a.base, f.expected);
    b := b.(units := units);
  }

  // The assets once the first k fixes are written.
  ghost predicate Written(data: seq<Asset>, assets: seq<Asset>, fixes: FixMap, toFix: seq<IndexFix>, k: nat)
    requires k <= |toFix|
  {
    && |data| == |assets|
    && (forall i :: 0 <= i < |assets| ==>
          data[i] == if exists l :: 0 <= l < k && toFix[l].idx == i then Fix(assets[i], fixes) else assets[i])
  }

  lemma WrittenOneMore(data: seq<Asset>, b: Asset, assets: seq<Asset>, fixes: FixMap, toFix: seq<IndexFix>, k: nat)
    requires CollectedFixes(toFix, assets, fixes, |assets|) && k < |toFix| && Written(data, assets, fixes, toFix, k)
    requires b == Fix(assets[toFix[k].idx], fixes)
    ensures Written(data[toFix[k].idx := b], assets, fixes, toFix, k + 1)
  {
    var next := data[toFix[k].idx := b];
    forall i | 0 <= i < |assets|
      ensures next[i] == if exists l :: 0 <= l < k + 1 && toFix[l].idx == i then Fix(assets[i], fixes) else assets[i]
    {
      assert (exists l :: 0 <= l < k + 1 && toFix[l].idx == i) <==> (exists l :: 0 <= l < k && toFix[l].idx == i) || toFix[k].idx == i;
    }
  }

  lemma AllWritten(data: seq<Asset>, assets: seq<Asset>, fixes: FixMap, toFix: seq<IndexFix>)
    requires CollectedFixes(toFix, assets, fixes, |assets|) && Written(data, assets, fixes, toFix, |toFix|)
    ensures data == Fixed(assets, fixes)
  {
    forall i | 0 <= i < |assets| ensures data[i] == Fix(assets[i], fixes) {
      if FixKey(assets[i]) !in fixes {
        assert forall l :: 0 <= l < |toFix| && toFix[l].idx == i ==> Describes(toFix[l], assets, fixes);
      }
    }
  }

  method WriteFixes(assets: seq<Asset>, fixes: FixMap, toFix: seq<IndexFix>) returns (data: seq<Asset>)
    requires CollectedFixes(toFix, assets, fixes, |assets|)
    ensures data == Fixed(assets, fixes)
  {
    data := assets;
    for k := 0 to |toFix|
      invariant Written(data, assets, fixes, toFix, k)
    {
      var f := toFix[k];
      assert Describes(f, assets, fixes);
      assert data[f.idx] == assets[f.idx];
      var b := RewriteAsset(data[f.idx], f);
      WrittenOneMore(data, b, assets, fixes, toFix, k);
      data := data[f.idx := b];
    }
    AllWritten(data, assets, fixes, toFix);
  }

  ghost predicate SomeMatch(assets: seq<Asset>, fixes: FixMap) {
    exists a :: a in assets && FixKey(a) in fixes
  }

  method EditAssetListJSON(assets: seq<Asset>, fixes: seq<Mismatch>) returns (r: Option<seq<Asset>>)
    ensures r.None? <==> !SomeMatch(assets, FixesOf(fixes))
    ensures r.Some? ==> r.value == Fixed(assets, FixesOf(fixes))
  {
    var m := BuildFixMap(fixes);
    var toFix := CollectFixes(assets, m);
    if |toFix| == 0 {
      assert forall i :: 0 <= i < |assets| ==> FixKey(assets[i]) !in m;
      return None;
    }
    assert Describes(toFix[0], assets, m) && assets[toFix[0].idx] in assets;
    var data := WriteFixes(assets, m, toFix);
    return Some(data);
  }
}
