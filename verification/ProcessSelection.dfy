/** The choice of processes to report, as both process collectors make it: every watched process, and the
    busiest of the others, kept in a min-heap while the processes stream by. */
module ProcessSelection {
  import opened Records
  import opened ProcessHeap

  /** The samples of the processes that could be read, in the order of the enumeration. */
  function Usable(procs: seq<Process>, sample: Process -> Option<Quick>): seq<Quick> {
    if procs == [] then []
    else
      var before := Usable(procs[..|procs| - 1], sample);
      match sample(procs[|procs| - 1])
      case Some(q) => before + [q]
      case None => before
  }

  function Watched(qs: seq<Quick>): (r: seq<Quick>)
    ensures |r| <= |qs|
  {
    if qs == [] then []
    else Watched(qs[..|qs| - 1]) + if qs[|qs| - 1].watched then [qs[|qs| - 1]] else []
  }

  function Others(qs: seq<Quick>): (r: seq<Quick>)
    ensures |r| <= |qs|
  {
    if qs == [] then []
    else Others(qs[..|qs| - 1]) + if qs[|qs| - 1].watched then [] else [qs[|qs| - 1]]
  }

  /** The processes that are not watched and came by while slots were left. */
  function Considered(qs: seq<Quick>, topN: nat): seq<Quick> {
    if qs == [] then []
    else
      var before, q := qs[..|qs| - 1], qs[|qs| - 1];
      Considered(before, topN) + if q.watched || |Watched(before)| >= topN then [] else [q]
  }

  function Slots(qs: seq<Quick>, topN: nat): nat {
    if |Watched(qs)| >= topN then 0 else topN - |Watched(qs)|
  }

  /** `k` is the most that ever fitted: the largest, over all moments of the enumeration, of the lesser
      of the slots left and the processes there were to fill them. */
  ghost predicate MostThatFitted(k: nat, qs: seq<Quick>, topN: nat) {
    && (exists j :: 0 <= j <= |qs| && k == Min(Slots(qs[..j], topN), |Others(qs[..j])|))
    && (forall j :: 0 <= j <= |qs| ==> Min(Slots(qs[..j], topN), |Others(qs[..j])|) <= k)
  }

  /** `top` holds the largest of `all`. */
  ghost predicate LargestOf(top: multiset<Quick>, all: multiset<Quick>) {
    && top <= all
    && forall x, y :: x in all - top && y in top ==> x.percent <= y.percent
  }

  ghost predicate Descending(s: seq<Quick>) {
    forall i, j :: 0 <= i < j < |s| ==> s[i].percent >= s[j].percent
  }

  /** The state of the first pass after the samples `qs`. */
  ghost predicate Kept(h: multiset<Quick>, qs: seq<Quick>, topN: nat) {
    && LargestOf(h, multiset(Considered(qs, topN)))
    && MostThatFitted(|h|, qs, topN)
    && (|h| < Slots(qs, topN) ==> h == multiset(Others(qs)))
    && (|Watched(qs)| < topN ==> Considered(qs, topN) == Others(qs))
    && |h| <= topN
  }

  lemma MostThatFittedStep(k: nat, qs: seq<Quick>, q: Quick, topN: nat, k': nat)
    requires MostThatFitted(k, qs, topN)
    requires k' == if Min(Slots(qs + [q], topN), |Others(qs + [q])|) > k
                   then Min(Slots(qs + [q], topN), |Others(qs + [q])|) else k
    ensures MostThatFitted(k', qs + [q], topN)
  {
    var all := qs + [q];
    forall j | 0 <= j <= |qs|
      ensures all[..j] == qs[..j]
    {
    }
    assert all[..|all|] == all;
    if k' != k {
      assert k' == Min(Slots(all[..|all|], topN), |Others(all[..|all|])|);
    } else {
      var j :| 0 <= j <= |qs| && k == Min(Slots(qs[..j], topN), |Others(qs[..j])|);
      assert k == Min(Slots(all[..j], topN), |Others(all[..j])|);
    }
    forall j | 0 <= j <= |all|
      ensures Min(Slots(all[..j], topN), |Others(all[..j])|) <= k'
    {
      assert j <= |qs| ==> all[..j] == qs[..j];
    }
  }

  lemma Extend(qs: seq<Quick>, q: Quick, topN: nat)
    ensures Watched(qs + [q]) == if q.watched then Watched(qs) + [q] else Watched(qs)
    ensures Others(qs + [q]) == if q.watched then Others(qs) else Others(qs) + [q]
    ensures Considered(qs + [q], topN) ==
            if q.watched || |Watched(qs)| >= topN then Considered(qs, topN) else Considered(qs, topN) + [q]
  {
    assert (qs + [q])[..|qs|] == qs;
  }

  /** A watched process takes a slot and leaves the heap as it is. */
  lemma KeptWatched(h: multiset<Quick>, qs: seq<Quick>, q: Quick, topN: nat)
    requires Kept(h, qs, topN) && q.watched
    ensures Kept(h, qs + [q], topN)
  {
    Extend(qs, q, topN);
    hide LargestOf, Considered, Watched, Others;
    assert Min(Slots(qs[..|qs|], topN), |Others(qs[..|qs|])|) <= |h|;
    assert qs[..|qs|] == qs;
    MostThatFittedStep(|h|, qs, q, topN, |h|);
  }

  /** With no slot left a process that is not watched is passed over. */
  lemma KeptPassedOver(h: multiset<Quick>, qs: seq<Quick>, q: Quick, topN: nat)
    requires Kept(h, qs, topN) && !q.watched && Slots(qs, topN) == 0
    ensures Kept(h, qs + [q], topN)
  {
    Extend(qs, q, topN);
    hide LargestOf, Considered, Watched, Others;
    MostThatFittedStep(|h|, qs, q, topN, |h|);
  }

  /** While the heap is smaller than the slots left it holds everything there was. */
  lemma KeptPushed(h: multiset<Quick>, qs: seq<Quick>, q: Quick, topN: nat)
    requires Kept(h, qs, topN) && !q.watched && |h| < Slots(qs, topN)
    ensures Kept(h + multiset{q}, qs + [q], topN)
  {
    Extend(qs, q, topN);
    hide Considered, Watched, Others;
    MostThatFittedStep(|h|, qs, q, topN, |h| + 1);
    assert multiset(Others(qs) + [q]) == h + multiset{q};
  }

  lemma LargestRejects(h: multiset<Quick>, all: multiset<Quick>, root: Quick, q: Quick)
    requires LargestOf(h, all) && LeastIn(root, h) && q.percent <= root.percent
    ensures LargestOf(h, all + multiset{q})
  {
    forall x, y | x in all + multiset{q} - h && y in h
      ensures x.percent <= y.percent
    {
      assert x == q || x in all - h;
    }
  }

  lemma LargestReplaces(h: multiset<Quick>, all: multiset<Quick>, root: Quick, q: Quick)
    requires LargestOf(h, all) && LeastIn(root, h) && q.percent > root.percent
    ensures LargestOf(h - multiset{root} + multiset{q}, all + multiset{q})
  {
    var g := h - multiset{root} + multiset{q};
    assert all + multiset{q} - g == all - h + multiset{root};
    forall x, y | x in all + multiset{q} - g && y in g
      ensures x.percent <= y.percent
    {
      assert x == root || x in all - h;
      assert y == q || y in h;
    }
  }

  /** With the heap full, a process enters in place of the least one exactly when it is busier. */
  lemma KeptFull(h: multiset<Quick>, qs: seq<Quick>, q: Quick, topN: nat, root: Quick)
    requires Kept(h, qs, topN) && !q.watched && 0 < Slots(qs, topN) <= |h| && LeastIn(root, h)
    ensures Kept(if q.percent > root.percent then h - multiset{root} + multiset{q} else h, qs + [q], topN)
  {
    Extend(qs, q, topN);
    hide Considered, Watched, Others, LargestOf;
    MostThatFittedStep(|h|, qs, q, topN, |h|);
    assert multiset(Considered(qs, topN) + [q]) == multiset(Considered(qs, topN)) + multiset{q};
    if q.percent > root.percent {
      LargestReplaces(h, multiset(Considered(qs, topN)), root, q);
      assert |h - multiset{root} + multiset{q}| == |h|;
    } else {
      LargestRejects(h, multiset(Considered(qs, topN)), root, q);
    }
  }

  lemma NothingKept(topN: nat)
    ensures Kept(multiset{}, [], topN)
  {
    assert Min(Slots([][..0], topN), |Others([][..0])|) == 0;
  }

  lemma NothingWatched(procs: seq<Process>, sample: Process -> Option<Quick>)
    ensures Usable(procs[..0], sample) == [] && Watched([]) == []
  {
  }

  lemma UsableStep(procs: seq<Process>, i: nat, sample: Process -> Option<Quick>)
    requires i < |procs|
    ensures Usable(procs[..i + 1], sample) ==
            if sample(procs[i]).Some? then Usable(procs[..i], sample) + [sample(procs[i]).value]
            else Usable(procs[..i], sample)
  {
    assert procs[..i + 1][..i] == procs[..i];
  }

  /** Offers a process that is not watched to the heap. */
  method Offer(h: MinHeap, q: Quick, topN: nat, watching: nat, ghost qs: seq<Quick>)
    requires h.Valid() && h.slots.Length == topN && !q.watched && watching == |Watched(qs)|
    requires Kept(h.Contents(), qs, topN)
    modifies h`len, h.slots
    ensures h.Valid() && Kept(h.Contents(), qs + [q], topN)
  {
    hide Kept;
    assert |h.Contents()| == h.len;
    var remainingSlots: int := topN - watching;
    if remainingSlots <= 0 {
      KeptPassedOver(h.Contents(), qs, q, topN);
      return;
    }
    if h.len < remainingSlots {
      KeptPushed(h.Contents(), qs, q, topN);
      h.Push(q);
    } else {
      var root := h.Least();
      KeptFull(h.Contents(), qs, q, topN, root);
      if q.percent > root.percent {
        h.ReplaceRoot(q);
      }
    }
  }

  /** The first pass; `cancelled(i)` says whether the context is done when the loop reaches process `i`. */
  method FirstPass(procs: seq<Process>, sample: Process -> Option<Quick>, topN: nat, cancelled: nat -> bool)
    returns (done: bool, watchedList: seq<Quick>, h: MinHeap)
    ensures h.Valid() && fresh(h) && fresh(h.slots) && h.slots.Length == topN
    ensures done <==> forall i: nat :: i < |procs| ==> !cancelled(i)
    ensures done ==> watchedList == Watched(Usable(procs, sample))
    ensures done ==> Kept(h.Contents(), Usable(procs, sample), topN)
  {
    hide Kept, Watched, Usable;
    h := new MinHeap(topN);
    watchedList := [];
    NothingKept(topN);
    NothingWatched(procs, sample);
    for i := 0 to |procs|
      invariant h.Valid() && fresh(h) && fresh(h.slots) && h.slots.Length == topN
      invariant forall j: nat :: j < i ==> !cancelled(j)
      invariant watchedList == Watched(Usable(procs[..i], sample))
      invariant Kept(h.Contents(), Usable(procs[..i], sample), topN)
    {
      if cancelled(i) {
        return false, watchedList, h;
      }
      ghost var qs := Usable(procs[..i], sample);
      UsableStep(procs, i, sample);
      var reading := sample(procs[i]);
      if reading.Some? {
        var q := reading.value;
        Extend(qs, q, topN);
        if q.watched {
          KeptWatched(h.Contents(), qs, q, topN);
          watchedList := watchedList + [q];
        } else {
          Offer(h, q, topN, |watchedList|, qs);
        }
      }
    }
    assert procs[..|procs|] == procs;
    done := true;
  }

  lemma Prepended(q: Quick, s: seq<Quick>)
    requires Descending(s) && forall x :: x in multiset(s) ==> x.percent <= q.percent
    ensures Descending([q] + s) && multiset([q] + s) == multiset(s) + multiset{q}
  {
    forall i, j | 0 <= i < j < |[q] + s|
      ensures ([q] + s)[i].percent >= ([q] + s)[j].percent
    {
      assert ([q] + s)[j] == s[j - 1] && s[j - 1] in multiset(s);
    }
  }

  lemma FirstIsLargest(s: seq<Quick>)
    requires Descending(s) && s != []
    ensures Descending(s[1..]) && multiset(s) == multiset(s[1..]) + multiset{s[0]}
    ensures forall x :: x in multiset(s[1..]) ==> x.percent <= s[0].percent
  {
    assert s == [s[0]] + s[1..];
    forall x | x in multiset(s[1..])
      ensures x.percent <= s[0].percent
    {
      assert x in s[1..];
    }
  }

  /** One element's place in a descending list; with `SortedDescending` it stands for `sort.Slice`, of
      which callers may only use that it sorts. */
  function Insert(q: Quick, s: seq<Quick>): (r: seq<Quick>)
    requires Descending(s)
    ensures Descending(r) && multiset(r) == multiset(s) + multiset{q}
  {
    hide Descending;
    if s == [] then
      Prepended(q, s);
      [q] + s
    else
      FirstIsLargest(s);
      if q.percent >= s[0].percent then
        Prepended(q, s);
        [q] + s
      else
        var rest := Insert(q, s[1..]);
        Prepended(s[0], rest);
        [s[0]] + rest
  }

  function SortedDescending(s: seq<Quick>): (r: seq<Quick>)
    ensures Descending(r) && multiset(r) == multiset(s)
  {
    if s == [] then []
    else
      assert s == [s[0]] + s[1..];
      Insert(s[0], SortedDescending(s[1..]))
  }

  /** `all` has been parted into `rest` and the list `items`, none of which is busier than any of `rest`. */
  ghost predicate Parted(all: multiset<Quick>, rest: multiset<Quick>, items: seq<Quick>) {
    && all == rest + multiset(items) && Descending(items)
    && forall x, y :: x in rest && y in multiset(items) ==> y.percent <= x.percent
  }

  lemma PartedByPop(all: multiset<Quick>, rest: multiset<Quick>, items: seq<Quick>, q: Quick)
    requires Parted(all, rest, items) && LeastIn(q, rest)
    ensures Parted(all, rest - multiset{q}, [q] + items)
  {
    Prepended(q, items);
  }

  /** Pops the least element into the last free place. */
  method ExtractOne(h: MinHeap, heapItems: array<Quick>, i: nat, ghost all: multiset<Quick>)
    requires h.Valid() && h.len == i + 1 <= heapItems.Length && heapItems != h.slots
    requires Parted(all, h.Contents(), heapItems[i + 1..])
    modifies h`len, h.slots, heapItems
    ensures h.Valid() && h.len == i && Parted(all, h.Contents(), heapItems[i..])
  {
    hide Heap, Parted, LeastIn;
    hide MinHeap.Contents, Heap;
    ghost var after := heapItems[i + 1..];
    ghost var before := h.Contents();
    var q := h.Pop();
    PartedByPop(all, before, after, q);
    heapItems[i] := q;
    assert heapItems[i..] == [q] + after;
  }

  /** Empties the heap from its least element on, filling the list from its end. */
  method Extract(h: MinHeap) returns (items: seq<Quick>)
    requires h.Valid()
    modifies h`len, h.slots
    ensures Descending(items) && multiset(items) == old(h.Contents())
  {
    hide Heap, Parted, Descending;
    ghost var all := h.Contents();
    var heapItems := new Quick[h.len];
    NothingExtracted(all, heapItems[h.len..]);
    for i := h.len downto 0
      invariant h.Valid() && h.len == i && Parted(all, h.Contents(), heapItems[i..])
    {
      ExtractOne(h, heapItems, i, all);
    }
    items := heapItems[..];
    AllExtracted(all, h.Contents(), heapItems[0..]);
    assert heapItems[0..] == items;
  }

  lemma NothingExtracted(all: multiset<Quick>, none: seq<Quick>)
    requires none == []
    ensures Parted(all, all, none)
  {
  }

  lemma AllExtracted(all: multiset<Quick>, rest: multiset<Quick>, items: seq<Quick>)
    requires Parted(all, rest, items) && |rest| == 0
    ensures Descending(items) && multiset(items) == all
  {
  }

  /** What one selection gives: the watched processes and the busiest of the others, each sorted. */
  ghost predicate Selected(watched: seq<Quick>, top: seq<Quick>, qs: seq<Quick>, topN: nat) {
    && multiset(watched) == multiset(Watched(qs)) && Descending(watched)
    && Kept(multiset(top), qs, topN) && Descending(top)
  }

  method Select(procs: seq<Process>, sample: Process -> Option<Quick>, topN: nat, cancelled: nat -> bool)
    returns (done: bool, watched: seq<Quick>, top: seq<Quick>)
    ensures done <==> forall i: nat :: i < |procs| ==> !cancelled(i)
    ensures done ==> Selected(watched, top, Usable(procs, sample), topN)
  {
    hide Kept, Watched, Usable, Descending;
    var h: MinHeap;
    done, watched, h := FirstPass(procs, sample, topN, cancelled);
    if !done {
      return false, [], [];
    }
    watched := SortedDescending(watched);
    top := Extract(h);
  }

  lemma {:induction false} ConsideredAmongOthers(qs: seq<Quick>, topN: nat)
    ensures multiset(Considered(qs, topN)) <= multiset(Others(qs))
  {
    if qs == [] {
    } else {
      var before, q := qs[..|qs| - 1], qs[|qs| - 1];
      assert qs == before + [q];
      Extend(before, q, topN);
      ConsideredAmongOthers(before, topN);
      hide Considered, Others;
    }
  }

  lemma {:induction false} WatchedOrOther(qs: seq<Quick>)
    ensures multiset(Watched(qs)) + multiset(Others(qs)) == multiset(qs)
    ensures forall q :: q in multiset(Watched(qs)) ==> q.watched
    ensures forall q :: q in multiset(Others(qs)) ==> !q.watched
  {
    if qs == [] {
    } else {
      var before, q := qs[..|qs| - 1], qs[|qs| - 1];
      assert qs == before + [q];
      Extend(before, q, 0);
      WatchedOrOther(before);
      hide Considered, Watched, Others;
    }
  }

  /** Nothing is selected that was not sampled, and nothing more often than it was. */
  lemma SelectedAreSamples(watched: seq<Quick>, top: seq<Quick>, qs: seq<Quick>, topN: nat)
    requires Selected(watched, top, qs, topN)
    ensures multiset(watched + top) <= multiset(qs) && |watched| == |Watched(qs)|
    ensures forall i :: 0 <= i < |watched| ==> watched[i].watched
    ensures forall i :: 0 <= i < |top| ==> !top[i].watched
  {
    ConsideredAmongOthers(qs, topN);
    WatchedOrOther(qs);
    assert |watched| == |multiset(watched)|;
    forall i | 0 <= i < |watched|
      ensures watched[i].watched
    {
      assert watched[i] in multiset(watched);
    }
    forall i | 0 <= i < |top|
      ensures !top[i].watched
    {
      assert top[i] in multiset(top);
    }
  }

  lemma {:induction false} OthersGrow(qs: seq<Quick>, j: nat)
    requires j <= |qs|
    ensures |Others(qs[..j])| <= |Others(qs)|
  {
    if j == |qs| {
      assert qs[..j] == qs;
    } else {
      assert qs[..|qs| - 1][..j] == qs[..j];
      OthersGrow(qs[..|qs| - 1], j);
    }
  }

  /** How many others are reported, from below and above. */
  lemma KeptBounds(k: nat, qs: seq<Quick>, topN: nat)
    requires MostThatFitted(k, qs, topN)
    ensures Min(Slots(qs, topN), |Others(qs)|) <= k <= Min(topN, |Others(qs)|)
  {
    assert qs[..|qs|] == qs;
    var j :| 0 <= j <= |qs| && k == Min(Slots(qs[..j], topN), |Others(qs[..j])|);
    OthersGrow(qs, j);
  }

  /** When the watched processes come early enough: whenever one that takes a slot is still to come,
      the others so far would fit in the slots left at the end. */
  ghost predicate WatchedComeEarly(qs: seq<Quick>, topN: nat) {
    forall j :: 0 <= j <= |qs| && |Watched(qs[..j])| < Min(|Watched(qs)|, topN)
                ==> |Others(qs[..j])| <= Slots(qs, topN)
  }

  /** The number of others reported is the number of slots the watched ones leave, or all others if
      there are fewer, exactly when the watched processes come early enough. */
  lemma FillsSlotsIff(k: nat, qs: seq<Quick>, topN: nat)
    requires MostThatFitted(k, qs, topN)
    ensures k == Min(Slots(qs, topN), |Others(qs)|) <==> WatchedComeEarly(qs, topN)
  {
    KeptBounds(k, qs, topN);
    if k == Min(Slots(qs, topN), |Others(qs)|) {
      forall j | 0 <= j <= |qs| && |Watched(qs[..j])| < Min(|Watched(qs)|, topN)
        ensures |Others(qs[..j])| <= Slots(qs, topN)
      {
        assert Min(Slots(qs[..j], topN), |Others(qs[..j])|) <= k;
      }
    }
    if WatchedComeEarly(qs, topN) {
      var j :| 0 <= j <= |qs| && k == Min(Slots(qs[..j], topN), |Others(qs[..j])|);
      assert |Watched(qs[..j])| < Min(|Watched(qs)|, topN) ==> |Others(qs[..j])| <= Slots(qs, topN);
    }
  }

  /** The documented choice, in number and in kind, is made exactly when the watched processes come early
      enough: as many others as slots are left, and the busiest of all others. */
  lemma DocumentedChoiceIff(h: multiset<Quick>, qs: seq<Quick>, topN: nat)
    requires Kept(h, qs, topN)
    ensures |h| == Min(Slots(qs, topN), |Others(qs)|) && LargestOf(h, multiset(Others(qs)))
            <==> WatchedComeEarly(qs, topN)
  {
    FillsSlotsIff(|h|, qs, topN);
    hide WatchedComeEarly, MostThatFitted;
    if |h| == 0 {
      assert h == multiset{};
    }
  }

  /** The elements of `s` that are at least as busy as `p`. */
  function AtLeast(s: seq<Quick>, p: real): seq<Quick> {
    if s == [] then []
    else (if s[0].percent >= p then [s[0]] else []) + AtLeast(s[1..], p)
  }

  lemma {:induction false} AtLeastCounts(s: seq<Quick>, p: real)
    ensures forall q :: multiset(AtLeast(s, p))[q] == if q.percent >= p then multiset(s)[q] else 0
  {
    if s == [] {
    } else {
      assert s == [s[0]] + s[1..];
      AtLeastCounts(s[1..], p);
      var rest := AtLeast(s[1..], p);
      assert multiset([s[0]] + rest) == multiset{s[0]} + multiset(rest);
    }
  }

  /** The processes that came by when no slot was left. */
  function PassedOver(qs: seq<Quick>, topN: nat): multiset<Quick> {
    multiset(Others(qs)) - multiset(Considered(qs, topN))
  }

  /** Of the processes considered, at least `k` are no less busy than any that was passed over. */
  ghost predicate PassedOverAreLesser(k: nat, qs: seq<Quick>, topN: nat) {
    forall x :: x in PassedOver(qs, topN) ==> |AtLeast(Considered(qs, topN), x.percent)| >= k
  }

  /** One process passed over does no harm exactly when as many considered ones as are kept are no
      less busy. */
  lemma NoBusierThanKeptIff(h: multiset<Quick>, considered: seq<Quick>, x: Quick)
    requires LargestOf(h, multiset(considered))
    ensures (forall y :: y in h ==> x.percent <= y.percent) <==> |AtLeast(considered, x.percent)| >= |h|
  {
    var f := AtLeast(considered, x.percent);
    AtLeastCounts(considered, x.percent);
    assert |multiset(f)| == |f|;
    if forall y :: y in h ==> x.percent <= y.percent {
      assert h <= multiset(f);
      SubsetIsSmaller(h, multiset(f));
    }
    if |f| >= |h| {
      forall y | y in h
        ensures x.percent <= y.percent
      {
        var z := OneMoreOf(multiset(f), h - multiset{y});
        assert z in multiset(f) && z.percent >= x.percent;
        assert z == y || z in multiset(considered) - h;
      }
    }
  }

  lemma OneMoreOf(a: multiset<Quick>, b: multiset<Quick>) returns (z: Quick)
    requires |a| > |b|
    ensures a[z] > b[z]
  {
    if a <= b {
      SubsetIsSmaller(a, b);
    }
    z :| a[z] > b[z];
  }

  lemma SubsetIsSmaller(a: multiset<Quick>, b: multiset<Quick>)
    requires a <= b
    ensures |a| <= |b|
  {
    assert b == a + (b - a);
  }

  /** The others kept are the busiest of all others exactly when those passed over are lesser. */
  lemma BusiestIff(h: multiset<Quick>, qs: seq<Quick>, topN: nat)
    requires Kept(h, qs, topN)
    ensures LargestOf(h, multiset(Others(qs))) <==> PassedOverAreLesser(|h|, qs, topN)
  {
    var considered := Considered(qs, topN);
    ConsideredAmongOthers(qs, topN);
    hide Considered, Others, MostThatFitted;
    if LargestOf(h, multiset(Others(qs))) {
      forall x | x in PassedOver(qs, topN)
        ensures |AtLeast(considered, x.percent)| >= |h|
      {
        assert x in multiset(Others(qs)) - h;
        NoBusierThanKeptIff(h, considered, x);
      }
    }
    if PassedOverAreLesser(|h|, qs, topN) {
      forall x, y | x in multiset(Others(qs)) - h && y in h
        ensures x.percent <= y.percent
      {
        if x in PassedOver(qs, topN) {
          NoBusierThanKeptIff(h, considered, x);
        } else {
          assert x in multiset(considered) - h;
        }
      }
    }
  }

  lemma TwoProcesses(a: Quick, b: Quick)
    requires !a.watched && b.watched
    ensures Watched([a, b]) == [b] && Others([a, b]) == [a]
  {
    Extend([], a, 1);
    Extend([a], b, 1);
    assert [] + [a] == [a] && [a] + [b] == [a, b];
    assert Watched([]) == [] && Others([]) == [];
    hide Watched, Others, Considered;
    assert [] + [b] == [b];
  }

  lemma TwoKept(a: Quick, b: Quick)
    requires !a.watched && b.watched
    ensures Kept(multiset{a}, [a, b], 1)
  {
    NothingKept(1);
    assert Slots([], 1) == 1;
    assert [] + [a] == [a] && [a] + [b] == [a, b];
    assert multiset{} + multiset{a} == multiset{a};
    hide *;
    KeptPushed(multiset{}, [], a, 1);
    KeptWatched(multiset{a}, [a], b, 1);
  }

  /** A watched process that comes after the heap has filled does not shrink it: two are reported where
      one was configured. */
  lemma LateWatchedOverfills(a: Quick, b: Quick)
    requires !a.watched && b.watched
    ensures Selected([b], [a], [a, b], 1) && !WatchedComeEarly([a, b], 1)
  {
    TwoProcesses(a, b);
    TwoKept(a, b);
    assert multiset([a]) == multiset{a};
    hide Watched, Others, Considered, Kept;
    assert [a, b][..1] == [a];
    OneOther(a);
  }

  lemma OneOther(a: Quick)
    requires !a.watched
    ensures Watched([a]) == [] && Others([a]) == [a]
  {
    assert [a][..0] == [];
  }

  lemma ThreeProcesses(a: Quick, b: Quick, c: Quick)
    requires !a.watched && b.watched && !c.watched
    ensures Watched([a, b]) == [b] && Watched([a, b, c]) == [b] && Others([a, b, c]) == [a, c]
  {
    hide Watched, Others, Considered;
    TwoProcesses(a, b);
    Extend([a, b], c, 1);
    assert [a, b] + [c] == [a, b, c];
    assert [a] + [c] == [a, c];
  }

  lemma ThreeKept(a: Quick, b: Quick, c: Quick)
    requires !a.watched && b.watched && !c.watched
    ensures Kept(multiset{a}, [a, b, c], 1)
  {
    TwoProcesses(a, b);
    assert Slots([a, b], 1) == 0;
    assert [a, b] + [c] == [a, b, c];
    hide *;
    TwoKept(a, b);
    KeptPassedOver(multiset{a}, [a, b], c, 1);
  }

  /** With as many watched processes as slots, a busy process that comes late is not even considered. */
  lemma LateBusyIsIgnored(a: Quick, b: Quick, c: Quick)
    requires !a.watched && b.watched && !c.watched && a.percent < c.percent
    ensures Selected([b], [a], [a, b, c], 1) && !LargestOf(multiset([a]), multiset(Others([a, b, c])))
  {
    ThreeProcesses(a, b, c);
    ThreeKept(a, b, c);
    hide Watched, Others, Kept;
    assert multiset([a]) == multiset{a};
    assert c in multiset([a, c]) - multiset{a};
  }
}
