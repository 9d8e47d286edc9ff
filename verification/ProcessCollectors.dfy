/** The CPU and memory process collectors: what each reads of a process, and the report each returns. */
module ProcessCollectors {
  import opened Records
  import opened ProcessHeap
  import opened ProcessSelection

  /** Name matching against the configured list; `fold` is lower-casing on Windows and the identity
      elsewhere. */
  function IsWatched(watch: seq<string>, fold: string -> string, name: string): (r: bool)
    ensures r <==> exists i :: 0 <= i < |watch| && fold(watch[i]) == fold(name)
  {
    fold(name) in set w | w in watch :: fold(w)
  }

  /** The CPU collector's first-pass reading, normalised to the number of processors. */
  function CpuSample(p: Process, numCPU: nat, watch: seq<string>, fold: string -> string): Option<Quick>
    requires numCPU > 0
  {
    if p.cpu.None? || p.name == "" then None
    else Some(Quick(p, p.cpu.value / numCPU as real, p.name, IsWatched(watch, fold, p.name), MemoryUse(0, 0, 0)))
  }

  /** The memory collector's first-pass reading. */
  function MemorySample(p: Process, watch: seq<string>, fold: string -> string): Option<Quick> {
    if p.memory.None? || p.memoryPercent.None? || p.name == "" then None
    else Some(Quick(p, p.memoryPercent.value, p.name, IsWatched(watch, fold, p.name), p.memory.value))
  }

  function CpuSampler(numCPU: nat, watch: seq<string>, fold: string -> string): Process -> Option<Quick>
    requires numCPU > 0
  {
    p => CpuSample(p, numCPU, watch, fold)
  }

  function MemorySampler(watch: seq<string>, fold: string -> string): Process -> Option<Quick> {
    p => MemorySample(p, watch, fold)
  }

  datatype Row = Row(
    pid: int, name: string, percent: real, memory: MemoryUse, username: string, createTime: int, watched: bool)

  function RowOf(q: Quick): Row {
    Row(q.proc.pid, q.name, q.percent, q.memory, q.proc.username, q.proc.createTime, q.watched)
  }

  ghost predicate RowsOf(rows: seq<Row>, qs: seq<Quick>) {
    |rows| == |qs| && forall i :: 0 <= i < |rows| ==> rows[i] == RowOf(qs[i])
  }

  ghost predicate Reported(rows: seq<Row>, qs: seq<Quick>, topN: nat) {
    exists watched: seq<Quick>, top: seq<Quick> :: Selected(watched, top, qs, topN) && RowsOf(rows, watched + top)
  }

  // ---------- what a row says of its process ----------

  /** The row is about process `p`: who it is, and whether some configured name folds to the same text. */
  ghost predicate Identifies(row: Row, p: Process, watch: seq<string>, fold: string -> string) {
    && row.pid == p.pid && row.name == p.name && p.name != ""
    && row.username == p.username && row.createTime == p.createTime
    && (row.watched <==> exists i :: 0 <= i < |watch| && fold(watch[i]) == fold(p.name))
  }

  /** A row of the CPU report: the percentages of all processors together make the reading. */
  ghost predicate CpuRow(row: Row, p: Process, numCPU: nat, watch: seq<string>, fold: string -> string) {
    && Identifies(row, p, watch, fold)
    && p.cpu.Some? && row.percent * numCPU as real == p.cpu.value
  }

  /** A row of the memory report. */
  ghost predicate MemoryRow(row: Row, p: Process, watch: seq<string>, fold: string -> string) {
    && Identifies(row, p, watch, fold)
    && p.memoryPercent == Some(row.percent)
    && p.memory.Some? && row.memory.rss == p.memory.value.rss && row.memory.vms == p.memory.value.vms
    && row.memory.swap == p.memory.value.swap
  }

  /** A process gives no CPU sample exactly when its reading or its name is missing. */
  lemma CpuSampleIff(p: Process, numCPU: nat, watch: seq<string>, fold: string -> string)
    requires numCPU > 0
    ensures CpuSample(p, numCPU, watch, fold).None? <==> p.cpu.None? || p.name == ""
    ensures CpuSample(p, numCPU, watch, fold).Some? ==>
              CpuRow(RowOf(CpuSample(p, numCPU, watch, fold).value), p, numCPU, watch, fold)
  {
  }

  /** A process gives no memory sample exactly when one of its readings or its name is missing. */
  lemma MemorySampleIff(p: Process, watch: seq<string>, fold: string -> string)
    ensures MemorySample(p, watch, fold).None? <==> p.memory.None? || p.memoryPercent.None? || p.name == ""
    ensures MemorySample(p, watch, fold).Some? ==>
              MemoryRow(RowOf(MemorySample(p, watch, fold).value), p, watch, fold)
  {
  }

  /** The row was made from the sample of a listed process. */
  ghost predicate Backed(row: Row, procs: seq<Process>, sample: Process -> Option<Quick>) {
    exists p :: p in procs && sample(p).Some? && row == RowOf(sample(p).value)
  }

  lemma {:induction false} UsableAreSampled(procs: seq<Process>, sample: Process -> Option<Quick>)
    ensures forall q :: q in Usable(procs, sample) ==> exists p :: p in procs && sample(p) == Some(q)
    ensures forall p :: p in procs && sample(p).Some? ==> sample(p).value in Usable(procs, sample)
  {
    if procs == [] {
    } else {
      var before, last := procs[..|procs| - 1], procs[|procs| - 1];
      assert forall p :: p in procs <==> p in before || p == last;
      UsableAreSampled(before, sample);
    }
  }

  /** Every row is about a listed process, and every listed process that gives a watched sample has one. */
  lemma RowsAreBacked(rows: seq<Row>, procs: seq<Process>, sample: Process -> Option<Quick>, topN: nat)
    requires Reported(rows, Usable(procs, sample), topN)
    ensures forall row :: row in rows ==> Backed(row, procs, sample)
    ensures forall p :: p in procs && sample(p).Some? && sample(p).value.watched ==> RowOf(sample(p).value) in rows
  {
    var qs := Usable(procs, sample);
    UsableAreSampled(procs, sample);
    ReportOrder(rows, qs, topN);
    WatchedOrOther(qs);
    var watched, top :| Selected(watched, top, qs, topN) && RowsOf(rows, watched + top);
    SelectedAreSamples(watched, top, qs, topN);
    hide Selected, Usable, Watched, Others, Reported;
    forall row | row in rows
      ensures Backed(row, procs, sample)
    {
      var i :| 0 <= i < |rows| && rows[i] == row;
      var q := (watched + top)[i];
      assert q in multiset(watched + top) && q in multiset(qs) && q in qs;
    }
    forall p | p in procs && sample(p).Some? && sample(p).value.watched
      ensures RowOf(sample(p).value) in rows
    {
      var q := sample(p).value;
      assert q in multiset(qs) && q in multiset(Watched(qs));
    }
  }

  datatype Collected = ListFailed | WarmingUp | Cancelled | Report(rows: seq<Row>)

  /** The second pass: details for the selected processes only. */
  method SecondPass(watched: seq<Quick>, top: seq<Quick>) returns (rows: seq<Row>)
    ensures RowsOf(rows, watched + top)
  {
    rows := [];
    for i := 0 to |watched|
      invariant RowsOf(rows, watched[..i])
    {
      rows := rows + [RowOf(watched[i])];
    }
    for i := 0 to |top|
      invariant RowsOf(rows, watched + top[..i])
    {
      rows := rows + [RowOf(top[i])];
    }
    assert top[..|top|] == top;
  }

  lemma CpuReport(
    rows: seq<Row>, procs: seq<Process>, topN: nat, numCPU: nat, watch: seq<string>, fold: string -> string)
    requires numCPU > 0 && Reported(rows, Usable(procs, CpuSampler(numCPU, watch, fold)), topN)
    ensures forall row :: row in rows ==> exists p :: p in procs && CpuRow(row, p, numCPU, watch, fold)
    ensures forall p :: p in procs && p.cpu.Some? && p.name != ""
                        && (exists i :: 0 <= i < |watch| && fold(watch[i]) == fold(p.name))
                        ==> exists row :: row in rows && CpuRow(row, p, numCPU, watch, fold)
  {
    var sample := CpuSampler(numCPU, watch, fold);
    RowsAreBacked(rows, procs, sample, topN);
    forall p ensures CpuSample(p, numCPU, watch, fold).None? <==> p.cpu.None? || p.name == ""
             ensures CpuSample(p, numCPU, watch, fold).Some? ==>
                       CpuRow(RowOf(CpuSample(p, numCPU, watch, fold).value), p, numCPU, watch, fold) {
      CpuSampleIff(p, numCPU, watch, fold);
    }
    forall row | row in rows
      ensures exists p :: p in procs && CpuRow(row, p, numCPU, watch, fold)
    {
      var p :| p in procs && sample(p).Some? && row == RowOf(sample(p).value);
    }
    forall p | p in procs && p.cpu.Some? && p.name != ""
               && (exists i :: 0 <= i < |watch| && fold(watch[i]) == fold(p.name))
      ensures exists row :: row in rows && CpuRow(row, p, numCPU, watch, fold)
    {
      assert RowOf(sample(p).value) in rows;
    }
  }

  lemma MemoryReport(rows: seq<Row>, procs: seq<Process>, topN: nat, watch: seq<string>, fold: string -> string)
    requires Reported(rows, Usable(procs, MemorySampler(watch, fold)), topN)
    ensures forall row :: row in rows ==> exists p :: p in procs && MemoryRow(row, p, watch, fold)
    ensures forall p :: p in procs && p.memory.Some? && p.memoryPercent.Some? && p.name != ""
                        && (exists i :: 0 <= i < |watch| && fold(watch[i]) == fold(p.name))
                        ==> exists row :: row in rows && MemoryRow(row, p, watch, fold)
  {
    var sample := MemorySampler(watch, fold);
    RowsAreBacked(rows, procs, sample, topN);
    forall p ensures MemorySample(p, watch, fold).None? <==> p.memory.None? || p.memoryPercent.None? || p.name == ""
             ensures MemorySample(p, watch, fold).Some? ==>
                       MemoryRow(RowOf(MemorySample(p, watch, fold).value), p, watch, fold) {
      MemorySampleIff(p, watch, fold);
    }
    forall row | row in rows
      ensures exists p :: p in procs && MemoryRow(row, p, watch, fold)
    {
      var p :| p in procs && sample(p).Some? && row == RowOf(sample(p).value);
    }
    forall p | p in procs && p.memory.Some? && p.memoryPercent.Some? && p.name != ""
               && (exists i :: 0 <= i < |watch| && fold(watch[i]) == fold(p.name))
      ensures exists row :: row in rows && MemoryRow(row, p, watch, fold)
    {
      assert RowOf(sample(p).value) in rows;
    }
  }

  class CPUProcessCollector {
    const topN: nat
    const numCPU: nat
    const watch: seq<string>
    const fold: string -> string
    var warmedUp: bool

    constructor (topN: nat, numCPU: nat, watch: seq<string>, fold: string -> string)
      ensures this.topN == topN && this.numCPU == numCPU && this.watch == watch && this.fold == fold && !warmedUp
    {
      this.topN, this.numCPU, this.watch, this.fold, warmedUp := topN, numCPU, watch, fold, false;
    }

    /** `procs` is the enumeration, if it succeeds; the first that does only sets the baselines. */
    method Collect(procs: Option<seq<Process>>, cancelled: nat -> bool) returns (r: Collected)
      requires numCPU > 0
      modifies this`warmedUp
      ensures r.ListFailed? <==> procs.None?
      ensures r.WarmingUp? <==> procs.Some? && !old(warmedUp)
      ensures warmedUp == (old(warmedUp) || procs.Some?)
      ensures r.Cancelled? ==> procs.Some? && exists i: nat :: i < |procs.value| && cancelled(i)
      ensures r.Report? ==> procs.Some? && forall i: nat :: i < |procs.value| ==> !cancelled(i)
      ensures r.Report? ==> Reported(r.rows, Usable(procs.value, CpuSampler(numCPU, watch, fold)), topN)
      ensures r.Report? ==>
                forall row :: row in r.rows ==> exists p :: p in procs.value && CpuRow(row, p, numCPU, watch, fold)
      ensures r.Report? ==>
                forall p :: p in procs.value && p.cpu.Some? && p.name != ""
                            && (exists i :: 0 <= i < |watch| && fold(watch[i]) == fold(p.name))
                            ==> exists row :: row in r.rows && CpuRow(row, p, numCPU, watch, fold)
    {
      hide Selected, Usable, CpuRow, CpuSample, CpuSampler;
      if procs.None? {
        return ListFailed;
      }
      if !warmedUp {
        warmedUp := true;
        return WarmingUp;
      }
      var done, watched, top := Select(procs.value, CpuSampler(numCPU, watch, fold), topN, cancelled);
      if !done {
        return Cancelled;
      }
      var rows := SecondPass(watched, top);
      CpuReport(rows, procs.value, topN, numCPU, watch, fold);
      r := Report(rows);
    }
  }

  class MemoryProcessCollector {
    const topN: nat
    const watch: seq<string>
    const fold: string -> string

    constructor (topN: nat, watch: seq<string>, fold: string -> string)
      ensures this.topN == topN && this.watch == watch && this.fold == fold
    {
      this.topN, this.watch, this.fold := topN, watch, fold;
    }

    method Collect(procs: Option<seq<Process>>, cancelled: nat -> bool) returns (r: Collected)
      ensures r.ListFailed? <==> procs.None?
      ensures !r.WarmingUp?
      ensures r.Cancelled? ==> procs.Some? && exists i: nat :: i < |procs.value| && cancelled(i)
      ensures r.Report? ==> procs.Some? && forall i: nat :: i < |procs.value| ==> !cancelled(i)
      ensures r.Report? ==> Reported(r.rows, Usable(procs.value, MemorySampler(watch, fold)), topN)
      ensures r.Report? ==>
                forall row :: row in r.rows ==> exists p :: p in procs.value && MemoryRow(row, p, watch, fold)
      ensures r.Report? ==>
                forall p :: p in procs.value && p.memory.Some? && p.memoryPercent.Some? && p.name != ""
                            && (exists i :: 0 <= i < |watch| && fold(watch[i]) == fold(p.name))
                            ==> exists row :: row in r.rows && MemoryRow(row, p, watch, fold)
    {
      hide Selected, Usable, MemoryRow, MemorySample, MemorySampler;
      if procs.None? {
        return ListFailed;
      }
      var done, watched, top := Select(procs.value, MemorySampler(watch, fold), topN, cancelled);
      if !done {
        return Cancelled;
      }
      var rows := SecondPass(watched, top);
      MemoryReport(rows, procs.value, topN, watch, fold);
      r := Report(rows);
    }
  }

  ghost predicate Sorted(rows: seq<Row>, from: nat, to: nat)
    requires to <= |rows|
  {
    forall i, j :: from <= i < j < to ==> rows[i].percent >= rows[j].percent
  }

  /** A report lists the watched processes first, all of them and nothing else, then the others, each
      part with the busiest first. */
  lemma ReportOrder(rows: seq<Row>, qs: seq<Quick>, topN: nat)
    requires Reported(rows, qs, topN)
    ensures |Watched(qs)| <= |rows|
    ensures forall i :: 0 <= i < |rows| ==> rows[i].watched == (i < |Watched(qs)|)
    ensures Sorted(rows, 0, |Watched(qs)|) && Sorted(rows, |Watched(qs)|, |rows|)
    ensures forall q :: q in Watched(qs) ==> RowOf(q) in rows
  {
    var watched, top :| Selected(watched, top, qs, topN) && RowsOf(rows, watched + top);
    SelectedAreSamples(watched, top, qs, topN);
    assert multiset(watched) == multiset(Watched(qs)) && Descending(watched) && Descending(top);
    hide Selected, Watched, Descending;
    PartsSorted(rows, watched, top);
    forall q | q in Watched(qs)
      ensures RowOf(q) in rows
    {
      assert q in multiset(watched);
      RowIsThere(rows, watched, top, q);
    }
  }

  lemma RowIsThere(rows: seq<Row>, watched: seq<Quick>, top: seq<Quick>, q: Quick)
    requires RowsOf(rows, watched + top) && q in watched
    ensures RowOf(q) in rows
  {
    var i :| 0 <= i < |watched| && watched[i] == q;
    assert (watched + top)[i] == q;
    assert rows[i] == RowOf(q);
  }

  lemma PartsSorted(rows: seq<Row>, watched: seq<Quick>, top: seq<Quick>)
    requires RowsOf(rows, watched + top) && Descending(watched) && Descending(top)
    ensures Sorted(rows, 0, |watched|) && Sorted(rows, |watched|, |rows|)
  {
    forall i, j | |watched| <= i < j < |rows|
      ensures rows[i].percent >= rows[j].percent
    {
      assert rows[i] == RowOf(top[i - |watched|]) && rows[j] == RowOf(top[j - |watched|]);
    }
  }

  /** Everything in `pool` that is not reported is no busier than any row from `from` on. */
  ghost predicate LeavesOutLesser(rows: seq<Row>, from: nat, pool: seq<Quick>) {
    forall q, i :: q in pool && RowOf(q) !in rows && from <= i < |rows| ==> q.percent <= rows[i].percent
  }

  ghost predicate IsRowFrom(row: Row, pool: seq<Quick>) {
    exists q :: q in pool && row == RowOf(q)
  }

  /** Which others are reported: processes that were considered, and the busiest of those. */
  lemma ReportConsidered(rows: seq<Row>, qs: seq<Quick>, topN: nat)
    requires Reported(rows, qs, topN)
    ensures forall i :: |Watched(qs)| <= i < |rows| ==> IsRowFrom(rows[i], Considered(qs, topN))
    ensures LeavesOutLesser(rows, |Watched(qs)|, Considered(qs, topN))
  {
    var watched, top :| Selected(watched, top, qs, topN) && RowsOf(rows, watched + top);
    SelectedAreSamples(watched, top, qs, topN);
    assert LargestOf(multiset(top), multiset(Considered(qs, topN)));
    hide Selected, Considered, Watched;
    LesserAreLeftOut(rows, watched, top, Considered(qs, topN));
    RowsComeFrom(rows, watched, top, Considered(qs, topN));
  }

  lemma RowsComeFrom(rows: seq<Row>, watched: seq<Quick>, top: seq<Quick>, pool: seq<Quick>)
    requires RowsOf(rows, watched + top) && multiset(top) <= multiset(pool)
    ensures forall i :: |watched| <= i < |rows| ==> IsRowFrom(rows[i], pool)
  {
    forall i | |watched| <= i < |rows|
      ensures IsRowFrom(rows[i], pool)
    {
      var q := top[i - |watched|];
      assert q in multiset(top) && q in pool;
      assert rows[i] == RowOf(q);
    }
  }

  /** The documented report: as many others as the watched ones leave slots, and the busiest there are. */
  ghost predicate AsDocumented(rows: seq<Row>, qs: seq<Quick>, topN: nat) {
    && |rows| == |Watched(qs)| + Min(Slots(qs, topN), |Others(qs)|)
    && LeavesOutLesser(rows, |Watched(qs)|, Others(qs))
  }

  /** How many others are reported; and the report is the documented one exactly when the watched
      processes come early enough. */
  lemma ReportTop(rows: seq<Row>, qs: seq<Quick>, topN: nat)
    requires Reported(rows, qs, topN)
    ensures |Watched(qs)| + Min(Slots(qs, topN), |Others(qs)|) <= |rows| <= |Watched(qs)| + Min(topN, |Others(qs)|)
    ensures AsDocumented(rows, qs, topN) <==> WatchedComeEarly(qs, topN)
    ensures |Watched(qs)| < topN ==> LeavesOutLesser(rows, |Watched(qs)|, Others(qs))
  {
    var watched, top :| Selected(watched, top, qs, topN) && RowsOf(rows, watched + top);
    SelectedAreSamples(watched, top, qs, topN);
    assert Kept(multiset(top), qs, topN);
    assert |multiset(top)| == |top| == |rows| - |watched|;
    hide Selected, RowsOf, Considered, Watched, Others, MostThatFitted, LargestOf, LeavesOutLesser, WatchedComeEarly;
    KeptBounds(|top|, qs, topN);
    DocumentedChoiceIff(multiset(top), qs, topN);
    FillsSlotsIff(|top|, qs, topN);
    if LargestOf(multiset(top), multiset(Others(qs))) {
      LesserAreLeftOut(rows, watched, top, Others(qs));
    }
  }

  lemma LesserAreLeftOut(rows: seq<Row>, watched: seq<Quick>, top: seq<Quick>, pool: seq<Quick>)
    requires RowsOf(rows, watched + top) && LargestOf(multiset(top), multiset(pool))
    ensures LeavesOutLesser(rows, |watched|, pool)
  {
    forall q, i | q in pool && RowOf(q) !in rows && |watched| <= i < |rows|
      ensures q.percent <= rows[i].percent
    {
      forall k | 0 <= k < |top|
        ensures top[k] != q
      {
        assert rows[|watched| + k] == RowOf(top[k]);
      }
      assert q in multiset(pool) - multiset(top);
      assert rows[i] == RowOf(top[i - |watched|]) && top[i - |watched|] in multiset(top);
    }
  }

  /** No process left out is busier than a reported other, exactly when the processes passed over are
      lesser; with distinct PIDs, so that a row names its process. */
  lemma ReportsBusiestIff(rows: seq<Row>, qs: seq<Quick>, topN: nat)
    requires Reported(rows, qs, topN) && DistinctPids(qs)
    ensures |Watched(qs)| <= |rows|
    ensures LeavesOutLesser(rows, |Watched(qs)|, Others(qs))
            <==> PassedOverAreLesser(|rows| - |Watched(qs)|, qs, topN)
  {
    hide Selected, RowsOf, DistinctPids, Watched, Others, LeavesOutLesser, PassedOverAreLesser;
    var watched, top :| Selected(watched, top, qs, topN) && RowsOf(rows, watched + top);
    BusiestRowsIff(rows, watched, top, qs, topN);
  }

  lemma BusiestRowsIff(rows: seq<Row>, watched: seq<Quick>, top: seq<Quick>, qs: seq<Quick>, topN: nat)
    requires Selected(watched, top, qs, topN) && RowsOf(rows, watched + top) && DistinctPids(qs)
    ensures |rows| == |watched| + |top| && |watched| == |Watched(qs)|
    ensures LeavesOutLesser(rows, |watched|, Others(qs)) <==> PassedOverAreLesser(|top|, qs, topN)
  {
    hide LeavesOutLesser, PassedOverAreLesser, LargestOf, MostThatFitted, Descending, DistinctPids;
    SelectedAreSamples(watched, top, qs, topN);
    assert |multiset(top)| == |top|;
    BusiestIff(multiset(top), qs, topN);
    if LargestOf(multiset(top), multiset(Others(qs))) {
      LesserAreLeftOut(rows, watched, top, Others(qs));
    }
    if LeavesOutLesser(rows, |watched|, Others(qs)) {
      BusiestFromRows(rows, watched, top, qs, topN);
    }
  }

  lemma BusiestFromRows(rows: seq<Row>, watched: seq<Quick>, top: seq<Quick>, qs: seq<Quick>, topN: nat)
    requires Selected(watched, top, qs, topN) && RowsOf(rows, watched + top) && DistinctPids(qs)
    requires LeavesOutLesser(rows, |watched|, Others(qs))
    ensures LargestOf(multiset(top), multiset(Others(qs)))
  {
    hide Selected, Others, DistinctPids;
    TopAmongOthers(watched, top, qs, topN);
    forall x: Quick, y: Quick | x in multiset(Others(qs)) - multiset(top) && y in multiset(top)
      ensures x.percent <= y.percent
    {
      LeftOutHasNoRow(rows, watched, top, qs, topN, x);
      RowOfTop(rows, watched, top, y);
    }
  }

  lemma TopAmongOthers(watched: seq<Quick>, top: seq<Quick>, qs: seq<Quick>, topN: nat)
    requires Selected(watched, top, qs, topN)
    ensures multiset(top) <= multiset(Others(qs))
  {
    ConsideredAmongOthers(qs, topN);
  }

  lemma RowOfTop(rows: seq<Row>, watched: seq<Quick>, top: seq<Quick>, y: Quick)
    requires RowsOf(rows, watched + top) && y in multiset(top)
    ensures exists i :: |watched| <= i < |rows| && rows[i] == RowOf(y)
  {
    var k :| 0 <= k < |top| && top[k] == y;
    assert rows[|watched| + k] == RowOf(y);
  }

  lemma LeftOutHasNoRow(
    rows: seq<Row>, watched: seq<Quick>, top: seq<Quick>, qs: seq<Quick>, topN: nat, x: Quick)
    requires Selected(watched, top, qs, topN) && RowsOf(rows, watched + top) && DistinctPids(qs)
    requires x in multiset(Others(qs)) - multiset(top)
    ensures x in Others(qs) && RowOf(x) !in rows
  {
    SelectedAreSamples(watched, top, qs, topN);
    OtherOnlyOnce(qs, x);
    assert multiset(watched) == multiset(Watched(qs));
    assert x !in multiset(top) && x !in multiset(watched);
    hide Selected, Others, Watched;
    if RowOf(x) in rows {
      var i :| 0 <= i < |rows| && rows[i] == RowOf(x);
      var q := (watched + top)[i];
      assert q in multiset(watched + top);
      SamePid(qs, q, x);
    }
  }

  lemma OtherOnlyOnce(qs: seq<Quick>, x: Quick)
    requires DistinctPids(qs) && x in multiset(Others(qs))
    ensures x in multiset(qs) && multiset(Others(qs))[x] == 1 && x !in multiset(Watched(qs))
  {
    WatchedOrOther(qs);
    assert x in multiset(qs);
    var k :| 0 <= k < |qs| && qs[k] == x;
    Once(qs, k);
  }

  lemma SamePid(qs: seq<Quick>, q: Quick, x: Quick)
    requires DistinctPids(qs) && q in multiset(qs) && x in multiset(qs) && q.proc.pid == x.proc.pid
    ensures q == x
  {
    var i :| 0 <= i < |qs| && qs[i] == q;
    var j :| 0 <= j < |qs| && qs[j] == x;
  }

  /** With one slot configured, a watched process that comes second gives a report of two. */
  lemma TwoRowsForOneSlot(a: Quick, b: Quick)
    requires !a.watched && b.watched
    ensures Reported([RowOf(b), RowOf(a)], [a, b], 1)
  {
    LateWatchedOverfills(a, b);
    hide Selected;
    assert RowsOf([RowOf(b), RowOf(a)], [b] + [a]);
  }

  ghost predicate DistinctPids(qs: seq<Quick>) {
    forall i, j :: 0 <= i < j < |qs| ==> qs[i].proc.pid != qs[j].proc.pid
  }

  lemma Once(qs: seq<Quick>, k: nat)
    requires DistinctPids(qs) && k < |qs|
    ensures multiset(qs)[qs[k]] == 1
  {
    assert qs == qs[..k] + [qs[k]] + qs[k + 1..];
    assert qs[k] !in qs[..k] && qs[k] !in qs[k + 1..];
  }

  lemma Twice(qs: seq<Quick>, i: nat, j: nat)
    requires i < j < |qs| && qs[i] == qs[j]
    ensures multiset(qs)[qs[i]] >= 2
  {
    assert qs == qs[..j] + [qs[j]] + qs[j + 1..];
    assert qs[..j][i] == qs[i] && qs[i] in qs[..j];
  }

  lemma PartIsDistinct(part: seq<Quick>, qs: seq<Quick>)
    requires DistinctPids(qs) && multiset(part) <= multiset(qs)
    ensures DistinctPids(part)
  {
    forall i, j | 0 <= i < j < |part|
      ensures part[i].proc.pid != part[j].proc.pid
    {
      assert part[i] in multiset(qs) && part[j] in multiset(qs);
      var m :| 0 <= m < |qs| && qs[m] == part[i];
      Once(qs, m);
      if part[i] == part[j] {
        Twice(part, i, j);
      }
    }
  }

  lemma {:induction false} UsableIsDistinct(procs: seq<Process>, sample: Process -> Option<Quick>)
    requires forall i, j :: 0 <= i < j < |procs| ==> procs[i].pid != procs[j].pid
    requires forall p :: sample(p).Some? ==> sample(p).value.proc == p
    ensures DistinctPids(Usable(procs, sample))
    ensures forall q :: q in Usable(procs, sample) ==> q.proc in procs
  {
    if procs == [] {
    } else {
      UsableIsDistinct(procs[..|procs| - 1], sample);
    }
  }

  /** No process is reported twice, given that the enumeration lists none twice. */
  lemma NoProcessRepeats(rows: seq<Row>, procs: seq<Process>, sample: Process -> Option<Quick>, topN: nat)
    requires forall i, j :: 0 <= i < j < |procs| ==> procs[i].pid != procs[j].pid
    requires forall p :: sample(p).Some? ==> sample(p).value.proc == p
    requires Reported(rows, Usable(procs, sample), topN)
    ensures forall i, j :: 0 <= i < j < |rows| ==> rows[i].pid != rows[j].pid
  {
    var qs := Usable(procs, sample);
    var watched, top :| Selected(watched, top, qs, topN) && RowsOf(rows, watched + top);
    UsableIsDistinct(procs, sample);
    SelectedAreSamples(watched, top, qs, topN);
    PartIsDistinct(watched + top, qs);
  }
}
