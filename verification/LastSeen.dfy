// The columns of a saved pair that describe its latest observation, over any history.
module LastSeen {
  import opened Probing
  import opened State
  import opened Update
  import opened Schedule
  import opened PrFlow
  import opened Sentinel
  import opened Trails
  import opened History

  // The run loaded the chain but no longer declares the pair.
  predicate Gone(inp: Input, c: string, k: string) {
    Loaded(inp, c) && !Probed(inp, c, k)
  }

  // The run's own probe was not skipped.
  predicate Seen(inp: Input, out: Outcome, c: string, k: string) {
    Loaded(inp, c) && Probed(inp, c, k) && (SeenAs(out, c, k, true) || SeenAs(out, c, k, false))
  }

  // ... or the re-probe before a removal passed.
  predicate Checked(inp: Input, out: Outcome, c: string, k: string) {
    Seen(inp, out, c, k) || (Loaded(inp, c) && Probed(inp, c, k) && RescuedIn(out, c, k))
  }

  // The run's observation of the pair, as the saved columns describe it.
  predicate DescribedBy(out: Outcome, c: string, k: string, es: EndpointState) {
    exists r :: r in out.results && Observes(c, k)(r) && es.provider == r.provider
      && es.failureClass == (if r.verdict.passed then "" else r.verdict.failureClass)
      && es.httpStatus == (if r.verdict.passed then 0 else r.verdict.httpStatus)
  }

  ghost predicate CheckedColumns(inp: Input, out: Outcome, c: string, k: string, es: EndpointState) {
    && es.lastChecked == inp.now
    && (es.lastPassed <==> SeenAs(out, c, k, true) || RescuedIn(out, c, k))
  }

  predicate SameChecked(es: EndpointState, es': EndpointState) {
    es'.lastChecked == es.lastChecked && es'.lastPassed == es.lastPassed
  }

  predicate SameDescription(es: EndpointState, es': EndpointState) {
    es'.provider == es.provider && es'.failureClass == es.failureClass && es'.httpStatus == es.httpStatus
  }

  ghost predicate ColumnStep(inp: Input, out: Outcome, c: string, k: string, es: EndpointState, es': EndpointState) {
    && (Gone(inp, c, k) ==> SameChecked(ZERO_STATE, es') && SameDescription(ZERO_STATE, es'))
    && (Checked(inp, out, c, k) ==> CheckedColumns(inp, out, c, k, es'))
    && (!Gone(inp, c, k) && !Checked(inp, out, c, k) ==> SameChecked(es, es'))
    && (Seen(inp, out, c, k) ==> DescribedBy(out, c, k, es'))
    && (!Gone(inp, c, k) && !Seen(inp, out, c, k) ==> SameDescription(es, es'))
  }

  lemma RescuedIsProbed(disk: StateMap, inp: Input, out: Outcome, disk': StateMap, c: string, k: string)
    requires RunsTo(disk, inp, out, disk') && RescuedIn(out, c, k)
    ensures Probed(inp, c, k)
  {
    assert RescueKeys(out.passed, c) == Recovered(AllJobs(inp.chains), out.flagged, inp.recheck, c);
  }

  lemma MergedColumns(inp: Input, out: Outcome, c: string, k: string, es: EndpointState, es': EndpointState)
    requires !(SeenAs(out, c, k, true) && SeenAs(out, c, k, false))
    requires MergesOne(es, es', out.results, inp.now, c, k)
    ensures es'.lastChecked == inp.now && (es'.lastPassed <==> SeenAs(out, c, k, true)) && DescribedBy(out, c, k, es')
  {
    var r :| r in out.results && Observes(c, k)(r) && es' == Observe(es, r, inp.now);
    assert SeenAs(out, c, k, r.verdict.passed);
  }

  predicate SeenAtAll(out: Outcome, c: string, k: string) {
    SeenAs(out, c, k, true) || SeenAs(out, c, k, false)
  }

  ghost predicate Merged(inp: Input, out: Outcome, c: string, k: string, es: EndpointState, merged: EndpointState) {
    && (!SeenAtAll(out, c, k) ==> merged == es)
    && (SeenAtAll(out, c, k) ==>
          merged.lastChecked == inp.now && (merged.lastPassed <==> SeenAs(out, c, k, true)) && DescribedBy(out, c, k, merged))
  }

  lemma LoadedColumnStep(inp: Input, out: Outcome, c: string, k: string, es: EndpointState, merged: EndpointState, es': EndpointState)
    requires Loaded(inp, c) && (RescuedIn(out, c, k) ==> Probed(inp, c, k)) && Merged(inp, out, c, k, es, merged)
    requires var kept := if Probed(inp, c, k) then merged else ZERO_STATE;
      es' == if RescuedIn(out, c, k) then Reset(kept, inp.now) else kept
    ensures ColumnStep(inp, out, c, k, es, es')
  {
    if RescuedIn(out, c, k) && SeenAtAll(out, c, k) {
      assert DescribedBy(out, c, k, merged);
      assert SameDescription(merged, es');
    }
  }

  lemma RunMerges(disk: StateMap, inp: Input, out: Outcome, c: string, k: string)
    requires ValidInput(inp) && DeliveredBy(out.results, AllJobs(inp.chains), inp.probe) && Loaded(inp, c)
    ensures c in ApplyAll(Load(disk, inp.chains), out.results, inp.now)
    ensures Merged(inp, out, c, k, Streak(disk, c, k), EndpointAt(ApplyAll(Load(disk, inp.chains), out.results, inp.now), c, k))
  {
    MergedStreak(disk, inp, out, c, k);
    NotBothWays(inp, out, c, k);
    if SeenAtAll(out, c, k) {
      MergedColumns(inp, out, c, k, Streak(disk, c, k), EndpointAt(ApplyAll(Load(disk, inp.chains), out.results, inp.now), c, k));
    }
  }

  lemma RunColumnStep(disk: StateMap, inp: Input, out: Outcome, disk': StateMap, c: string, k: string)
    requires ValidInput(inp) && RunsTo(disk, inp, out, disk')
    ensures ColumnStep(inp, out, c, k, Streak(disk, c, k), Streak(disk', c, k))
  {
    if Loaded(inp, c) {
      SavedStreak(disk, inp, out, disk', c, k);
      RunMerges(disk, inp, out, c, k);
      if RescuedIn(out, c, k) {
        RescuedIsProbed(disk, inp, out, disk', c, k);
      }
      LoadedColumnStep(inp, out, c, k, Streak(disk, c, k),
        EndpointAt(ApplyAll(Load(disk, inp.chains), out.results, inp.now), c, k), Streak(disk', c, k));
    } else {
      UnloadedUntouched(disk, inp, out, disk', c);
    }
  }

  // ---------------------------------------------------------------- over any history

  function GoneIn(tr: Trace, c: string, k: string): nat -> bool {
    (i: nat) => i < |tr.inputs| && Gone(tr.inputs[i], c, k)
  }

  function CheckedIn(tr: Trace, c: string, k: string): nat -> bool {
    (i: nat) => i < |tr.inputs| && i < |tr.outs| && Checked(tr.inputs[i], tr.outs[i], c, k)
  }

  function SeenIn(tr: Trace, c: string, k: string): nat -> bool {
    (i: nat) => i < |tr.inputs| && i < |tr.outs| && Seen(tr.inputs[i], tr.outs[i], c, k)
  }

  ghost predicate CheckedAre(tr: Trace, checked: seq<nat>, c: string, k: string, es: EndpointState) {
    && (checked == [] ==> SameChecked(ZERO_STATE, es))
    && (checked != [] ==>
          var i := checked[|checked| - 1];
          i < |tr.inputs| && i < |tr.outs| && CheckedColumns(tr.inputs[i], tr.outs[i], c, k, es))
  }

  ghost predicate SeenAre(tr: Trace, seen: seq<nat>, c: string, k: string, es: EndpointState) {
    && (seen == [] ==> SameDescription(ZERO_STATE, es))
    && (seen != [] ==>
          var i := seen[|seen| - 1];
          i < |tr.outs| && DescribedBy(tr.outs[i], c, k, es))
  }

  ghost predicate ColumnsAre(tr: Trace, n: nat, c: string, k: string, es: EndpointState) {
    && CheckedAre(tr, Trail(GoneIn(tr, c, k), CheckedIn(tr, c, k), n), c, k, es)
    && SeenAre(tr, Trail(GoneIn(tr, c, k), SeenIn(tr, c, k), n), c, k, es)
  }

  lemma CheckedExtend(tr: Trace, runs: seq<nat>, i: nat, c: string, k: string, es: EndpointState, es': EndpointState)
    requires i < |tr.inputs| && i < |tr.outs| && CheckedAre(tr, runs, c, k, es)
    requires ColumnStep(tr.inputs[i], tr.outs[i], c, k, es, es')
    ensures Gone(tr.inputs[i], c, k) ==> CheckedAre(tr, [], c, k, es')
    ensures Checked(tr.inputs[i], tr.outs[i], c, k) ==> CheckedAre(tr, runs + [i], c, k, es')
    ensures !Gone(tr.inputs[i], c, k) && !Checked(tr.inputs[i], tr.outs[i], c, k) ==> CheckedAre(tr, runs, c, k, es')
  {
    assert (runs + [i])[|runs + [i]| - 1] == i;
  }

  lemma SeenExtend(tr: Trace, runs: seq<nat>, i: nat, c: string, k: string, es: EndpointState, es': EndpointState)
    requires i < |tr.inputs| && i < |tr.outs| && SeenAre(tr, runs, c, k, es)
    requires ColumnStep(tr.inputs[i], tr.outs[i], c, k, es, es')
    ensures Gone(tr.inputs[i], c, k) ==> SeenAre(tr, [], c, k, es')
    ensures Seen(tr.inputs[i], tr.outs[i], c, k) ==> SeenAre(tr, runs + [i], c, k, es')
    ensures !Gone(tr.inputs[i], c, k) && !Seen(tr.inputs[i], tr.outs[i], c, k) ==> SeenAre(tr, runs, c, k, es')
  {
    assert (runs + [i])[|runs + [i]| - 1] == i;
  }

  lemma ColumnsExtend(tr: Trace, i: nat, c: string, k: string, es: EndpointState, es': EndpointState)
    requires i < |tr.inputs| && i < |tr.outs| && ColumnsAre(tr, i, c, k, es)
    requires ColumnStep(tr.inputs[i], tr.outs[i], c, k, es, es')
    ensures ColumnsAre(tr, i + 1, c, k, es')
  {
    TrailStep(GoneIn(tr, c, k), CheckedIn(tr, c, k), i);
    TrailStep(GoneIn(tr, c, k), SeenIn(tr, c, k), i);
    CheckedExtend(tr, Trail(GoneIn(tr, c, k), CheckedIn(tr, c, k), i), i, c, k, es, es');
    SeenExtend(tr, Trail(GoneIn(tr, c, k), SeenIn(tr, c, k), i), i, c, k, es, es');
    assert GoneIn(tr, c, k)(i) == Gone(tr.inputs[i], c, k);
    assert CheckedIn(tr, c, k)(i) == Checked(tr.inputs[i], tr.outs[i], c, k);
    assert SeenIn(tr, c, k)(i) == Seen(tr.inputs[i], tr.outs[i], c, k);
  }

  ghost predicate ColumnsMove(tr: Trace, c: string, k: string) {
    && |tr.outs| == |tr.inputs| && |tr.disks| == |tr.inputs| + 1
    && Streak(tr.disks[0], c, k) == ZERO_STATE
    && forall i :: 0 <= i < |tr.inputs| ==>
         ColumnStep(tr.inputs[i], tr.outs[i], c, k, Streak(tr.disks[i], c, k), Streak(tr.disks[i + 1], c, k))
  }

  lemma HistoryMovesColumns(tr: Trace, c: string, k: string)
    requires Happened(tr)
    ensures ColumnsMove(tr, c, k)
  {
    forall i | 0 <= i < |tr.inputs|
      ensures ColumnStep(tr.inputs[i], tr.outs[i], c, k, Streak(tr.disks[i], c, k), Streak(tr.disks[i + 1], c, k))
    {
      RunColumnStep(tr.disks[i], tr.inputs[i], tr.outs[i], tr.disks[i + 1], c, k);
    }
  }

  lemma {:induction false} ColumnsFollow(tr: Trace, n: nat, c: string, k: string)
    requires ColumnsMove(tr, c, k) && n <= |tr.inputs|
    ensures ColumnsAre(tr, n, c, k, Streak(tr.disks[n], c, k))
  {
    if n > 0 {
      ColumnsFollow(tr, n - 1, c, k);
      ColumnsExtend(tr, n - 1, c, k, Streak(tr.disks[n - 1], c, k), Streak(tr.disks[n], c, k));
    }
  }

  // Since the pair was last absent, the saved columns are those of its latest check: its time and
  // whether it passed; and those of its latest unskipped probe: provider, failure class and status.
  lemma ColumnsRefineHistory(tr: Trace, n: nat, c: string, k: string)
    requires Happened(tr) && n <= |tr.inputs|
    ensures ColumnsAre(tr, n, c, k, Streak(tr.disks[n], c, k))
  {
    HistoryMovesColumns(tr, c, k);
    ColumnsFollow(tr, n, c, k);
  }
}
