/** The min-heap of process samples: sift-up and sift-down in place on an array, to the contract of Go's
    container/heap, ordered by percentage with the smallest at the root. */
module ProcessHeap {
  import opened Records

  datatype MemoryUse = MemoryUse(rss: int, vms: int, swap: int)

  /** A process as the operating system describes it: the queries a collector treats as fallible are
      options, the others give an empty string or zero when they fail. */
  datatype Process = Process(
    pid: int, cpu: Option<real>, memory: Option<MemoryUse>, memoryPercent: Option<real>,
    name: string, username: string, createTime: int)

  /** What the first pass keeps of a process. */
  datatype Quick = Quick(proc: Process, percent: real, name: string, watched: bool, memory: MemoryUse)

  function Parent(c: int): int {
    (c - 1) / 2
  }

  ghost predicate Heap(s: seq<Quick>) {
    forall c :: 0 < c < |s| ==> s[Parent(c)].percent <= s[c].percent
  }

  /** A heap but for position `j`, which may be smaller than its parent. */
  ghost predicate HeapBelow(s: seq<Quick>, j: nat) {
    && (forall c :: 0 < c < |s| && c != j ==> s[Parent(c)].percent <= s[c].percent)
    && (forall c :: 0 < c < |s| && 0 < Parent(c) == j < |s| ==> s[Parent(j)].percent <= s[c].percent)
  }

  /** A heap but for position `i`, which may be larger than its children. */
  ghost predicate HeapAbove(s: seq<Quick>, i: nat) {
    && (forall c :: 0 < c < |s| && Parent(c) != i ==> s[Parent(c)].percent <= s[c].percent)
    && (forall c :: 0 < c < |s| && 0 < Parent(c) == i < |s| ==> s[Parent(i)].percent <= s[c].percent)
  }

  ghost predicate LeastIn(root: Quick, h: multiset<Quick>) {
    root in h && forall x :: x in h ==> root.percent <= x.percent
  }

  lemma {:induction false} RootIsLeast(s: seq<Quick>, i: nat)
    requires Heap(s) && i < |s|
    ensures s[0].percent <= s[i].percent
  {
    if i == 0 {
    } else {
      RootIsLeast(s, Parent(i));
    }
  }

  function Swapped(s: seq<Quick>, i: nat, j: nat): seq<Quick>
    requires i < |s| && j < |s|
  {
    s[i := s[j]][j := s[i]]
  }

  lemma UpStep(s: seq<Quick>, j: nat)
    requires HeapBelow(s, j) && 0 < j < |s| && s[j].percent < s[Parent(j)].percent
    ensures HeapBelow(Swapped(s, Parent(j), j), Parent(j))
  {
    var p, t := Parent(j), Swapped(s, Parent(j), j);
    forall c | 0 < c < |t| && c != p
      ensures t[Parent(c)].percent <= t[c].percent
    {
      assert c != j ==> s[Parent(c)].percent <= s[c].percent;
    }
    forall c | 0 < c < |t| && 0 < Parent(c) == p < |t|
      ensures t[Parent(p)].percent <= t[c].percent
    {
      assert s[Parent(p)].percent <= s[p].percent;
      assert c != j ==> s[Parent(c)].percent <= s[c].percent;
    }
  }

  ghost predicate SmallerChild(s: seq<Quick>, i: nat, j: nat) {
    && i < j < |s| && Parent(j) == i
    && forall c :: 0 < c < |s| && Parent(c) == i ==> s[j].percent <= s[c].percent
  }

  lemma DownStep(s: seq<Quick>, i: nat, j: nat)
    requires HeapAbove(s, i) && SmallerChild(s, i, j) && s[j].percent < s[i].percent
    ensures HeapAbove(Swapped(s, i, j), j)
  {
    var t := Swapped(s, i, j);
    forall c | 0 < c < |t| && Parent(c) != j
      ensures t[Parent(c)].percent <= t[c].percent
    {
      assert Parent(c) != i ==> s[Parent(c)].percent <= s[c].percent;
      assert Parent(c) == i ==> s[j].percent <= s[c].percent;
      assert c == i ==> s[Parent(i)].percent <= s[j].percent;
    }
    forall c | 0 < c < |t| && 0 < Parent(c) == j < |t|
      ensures t[Parent(j)].percent <= t[c].percent
    {
      assert s[Parent(c)].percent <= s[c].percent;
    }
  }

  /** Exchanges two elements among the first `n`. */
  method Swap(a: array<Quick>, n: nat, i: nat, j: nat)
    requires i < n && j < n <= a.Length
    modifies a
    ensures a[..n] == Swapped(old(a[..n]), i, j) && a[n..] == old(a[n..])
    ensures multiset(a[..n]) == multiset(old(a[..n]))
  {
    a[i], a[j] := a[j], a[i];
    assert a[..n] == Swapped(old(a[..n]), i, j);
  }

  /** Moves position `j0` up until its parent is not larger. */
  method Up(a: array<Quick>, n: nat, j0: nat)
    requires j0 < n <= a.Length && HeapBelow(a[..n], j0)
    modifies a
    ensures Heap(a[..n]) && a[n..] == old(a[n..])
    ensures multiset(a[..n]) == multiset(old(a[..n]))
  {
    hide HeapBelow;
    var j: nat := j0;
    while j != 0 && a[j].percent < a[(j - 1) / 2].percent
      invariant j < n && HeapBelow(a[..n], j)
      invariant a[n..] == old(a[n..]) && multiset(a[..n]) == multiset(old(a[..n]))
      decreases j
    {
      var i: nat := (j - 1) / 2;
      UpStep(a[..n], j);
      Swap(a, n, i, j);
      j := i;
    }
    NothingBelow(a[..n], j);
  }

  lemma NothingBelow(s: seq<Quick>, j: nat)
    requires j < |s| && HeapBelow(s, j) && (j == 0 || s[Parent(j)].percent <= s[j].percent)
    ensures Heap(s)
  {
  }

  /** The smaller child of `i`, or none. */
  method LeastChild(a: array<Quick>, n: nat, i: nat) returns (found: bool, j: nat)
    requires i < n <= a.Length
    ensures found ==> i < j < n && SmallerChild(a[..n], i, j)
    ensures !found ==> forall c :: 0 < c < n ==> Parent(c) != i
  {
    j := 2 * i + 1;
    if j >= n {
      return false, j;
    }
    if j + 1 < n && a[j + 1].percent < a[j].percent {
      j := j + 1;
    }
    assert forall c :: 0 < c < n && Parent(c) == i ==> c == 2 * i + 1 || c == 2 * i + 2;
    found := true;
  }

  lemma NothingAbove(s: seq<Quick>, i: nat, found: bool, j: nat)
    requires i < |s| && HeapAbove(s, i)
    requires found ==> SmallerChild(s, i, j) && s[i].percent <= s[j].percent
    requires !found ==> forall c :: 0 < c < |s| ==> Parent(c) != i
    ensures Heap(s)
  {
    forall c | 0 < c < |s|
      ensures s[Parent(c)].percent <= s[c].percent
    {
      assert found && Parent(c) == i ==> s[j].percent <= s[c].percent;
    }
  }

  /** Moves position `i0` down until no child is smaller; `moved` is whether it moved. */
  method Down(a: array<Quick>, n: nat, i0: nat) returns (moved: bool)
    requires n <= a.Length && (n > 0 ==> i0 < n) && HeapAbove(a[..n], i0)
    modifies a
    ensures Heap(a[..n]) && a[n..] == old(a[n..])
    ensures multiset(a[..n]) == multiset(old(a[..n]))
    ensures !moved ==> a[..n] == old(a[..n])
  {
    hide HeapAbove, SmallerChild;
    var i: nat := i0;
    if n == 0 {
      return false;
    }
    while true
      invariant i0 <= i < n && HeapAbove(a[..n], i)
      invariant a[n..] == old(a[n..]) && multiset(a[..n]) == multiset(old(a[..n]))
      invariant i == i0 ==> a[..n] == old(a[..n])
      decreases n - i
    {
      var found, j := LeastChild(a, n, i);
      if !found || a[i].percent <= a[j].percent {
        NothingAbove(a[..n], i, found, j);
        break;
      }
      DownStep(a[..n], i, j);
      Swap(a, n, i, j);
      i := j;
    }
    moved := i > i0;
  }

  /** The heap as the collectors use it; the array is as large as it can ever become. */
  class MinHeap {
    const slots: array<Quick>
    var len: nat

    ghost predicate Valid()
      reads this, slots
    {
      len <= slots.Length && Heap(slots[..len])
    }

    ghost function Contents(): multiset<Quick>
      reads this, slots
      requires len <= slots.Length
    {
      multiset(slots[..len])
    }

    constructor (capacity: nat)
      ensures Valid() && len == 0 && slots.Length == capacity && fresh(slots)
    {
      slots := new Quick[capacity];
      len := 0;
    }

    /** The smallest percentage in the heap. */
    method Least() returns (root: Quick)
      requires Valid() && len > 0
      ensures root == slots[0] && LeastIn(root, Contents())
    {
      root := slots[0];
      LeastOf(slots[..len]);
    }

    method Push(q: Quick)
      requires Valid() && len < slots.Length
      modifies this`len, slots
      ensures Valid() && len == old(len) + 1 && Contents() == old(Contents()) + multiset{q}
    {
      ghost var before := slots[..len];
      slots[len] := q;
      len := len + 1;
      assert slots[..len] == before + [q];
      AppendedIsHeapBelow(before, q);
      Up(slots, len, len - 1);
    }

    /** Replaces the root, as assigning element 0 and calling `heap.Fix(h, 0)` does. */
    method ReplaceRoot(q: Quick)
      requires Valid() && len > 0
      modifies slots
      ensures Valid() && Contents() == old(Contents()) - multiset{old(slots[0])} + multiset{q} && len == old(len)
    {
      ghost var before, root := slots[..len], slots[0];
      slots[0] := q;
      assert slots[..len] == before[0 := q];
      assert multiset(before[0 := q]) == multiset(before) - multiset{root} + multiset{q};
      ChangedRootIsHeapAbove(before, q);
      var moved := Down(slots, len, 0);
      if !moved {
        Up(slots, len, 0);
      }
    }

    /** Takes the smallest element out: it goes to the end, the former last element sinks from the root. */
    method Pop() returns (q: Quick)
      requires Valid() && len > 0
      modifies this`len, slots
      ensures Valid() && len == old(len) - 1 && Contents() == old(Contents()) - multiset{q}
      ensures LeastIn(q, old(Contents()))
    {
      hide Heap, HeapAbove, Swapped, LeastIn;
      ghost var before := slots[..len];
      LeastOf(before);
      LastAfterSwap(before);
      var n := len - 1;
      Swap(slots, len, 0, n);
      assert slots[..n] == slots[..len][..n] && slots[n..][0] == slots[..len][n];
      var moved := Down(slots, n, 0);
      assert slots[n] == slots[n..][0];
      q := slots[n];
      len := n;
    }
  }

  lemma LeastOf(s: seq<Quick>)
    requires Heap(s) && |s| > 0
    ensures LeastIn(s[0], multiset(s))
  {
    forall q | q in multiset(s)
      ensures s[0].percent <= q.percent
    {
      assert q in s;
      var i :| 0 <= i < |s| && s[i] == q;
      RootIsLeast(s, i);
    }
  }

  lemma AppendedIsHeapBelow(s: seq<Quick>, q: Quick)
    requires Heap(s)
    ensures HeapBelow(s + [q], |s|)
  {
  }

  lemma ChangedRootIsHeapAbove(s: seq<Quick>, q: Quick)
    requires Heap(s) && |s| > 0
    ensures HeapAbove(s[0 := q], 0)
  {
  }

  /** Swapping root and last element leaves the others, but for the new root, a heap before the old root. */
  lemma LastAfterSwap(s: seq<Quick>)
    requires Heap(s) && |s| > 0
    ensures var t := Swapped(s, 0, |s| - 1);
      t[|s| - 1] == s[0] && HeapAbove(t[..|s| - 1], 0) && multiset(t[..|s| - 1]) == multiset(s) - multiset{s[0]}
  {
    SwappedIsHeapAbove(s);
    SwapPermutes(s, 0, |s| - 1);
    hide Heap, HeapAbove;
    var t := Swapped(s, 0, |s| - 1);
    assert t == t[..|s| - 1] + [s[0]];
    assert multiset(t) == multiset(t[..|s| - 1]) + multiset{s[0]};
  }

  lemma SwappedIsHeapAbove(s: seq<Quick>)
    requires Heap(s) && |s| > 0
    ensures HeapAbove(Swapped(s, 0, |s| - 1)[..|s| - 1], 0)
  {
    var t := Swapped(s, 0, |s| - 1)[..|s| - 1];
    forall c | 0 < c < |t| && Parent(c) != 0
      ensures t[Parent(c)].percent <= t[c].percent
    {
      assert t[c] == s[c] && t[Parent(c)] == s[Parent(c)];
    }
  }

  lemma SwapPermutes(s: seq<Quick>, i: nat, j: nat)
    requires i < |s| && j < |s|
    ensures multiset(Swapped(s, i, j)) == multiset(s)
  {
  }
}
