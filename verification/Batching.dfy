/** Pure specification of the record buffer: what the cap keeps, how a flush groups and splits. */
module Batching {
  import opened Records

  // ---------- record counts ----------

  function Total(es: seq<Entry>): nat {
    if es == [] then 0 else |es[0].records| + Total(es[1..])
  }

  lemma {:induction false} TotalConcat(a: seq<Entry>, b: seq<Entry>)
    ensures Total(a + b) == Total(a) + Total(b)
  {
    if a == [] {
      assert a + b == b;
    } else {
      assert (a + b)[1..] == a[1..] + b;
      TotalConcat(a[1..], b);
    }
  }

  lemma TotalSplit(es: seq<Entry>, k: nat)
    requires k <= |es|
    ensures Total(es) == Total(es[..k]) + Total(es[k..])
  {
    assert es == es[..k] + es[k..];
    TotalConcat(es[..k], es[k..]);
  }

  lemma TotalSnoc(es: seq<Entry>, e: Entry)
    ensures Total(es + [e]) == Total(es) + |e.records|
  {
    TotalConcat(es, [e]);
  }

  // ---------- drop-oldest ----------

  /** The number of oldest entries to discard until at most `cap` records remain. */
  function Cut(cap: nat, es: seq<Entry>): (k: nat)
    ensures k <= |es| && Total(es[k..]) <= cap
  {
    if Total(es) <= cap then 0
    else
      var k := 1 + Cut(cap, es[1..]);
      assert es[k..] == es[1..][k - 1..];
      k
  }

  lemma {:induction false} CutIsLeast(cap: nat, es: seq<Entry>, j: nat)
    requires j < Cut(cap, es)
    ensures Total(es[j..]) > cap
  {
    if j == 0 {
      assert es[0..] == es;
    } else {
      CutIsLeast(cap, es[1..], j - 1);
      assert es[j..] == es[1..][j - 1..];
    }
  }

  /** `Cut` is the only position that fits while the position before it does not. */
  lemma CutUnique(cap: nat, es: seq<Entry>, k: nat)
    requires k <= |es| && Total(es[k..]) <= cap
    requires k > 0 ==> Total(es[k - 1..]) > cap
    ensures k == Cut(cap, es)
  {
    hide Total, Cut;
    var c := Cut(cap, es);
    if k < c {
      CutIsLeast(cap, es, k);
    } else if c < k {
      TotalShrinks(es, c, k - 1);
    }
  }

  lemma TotalShrinks(es: seq<Entry>, i: nat, j: nat)
    requires i <= j <= |es|
    ensures Total(es[i..]) >= Total(es[j..])
  {
    assert es[i..][j - i..] == es[j..];
    TotalSplit(es[i..], j - i);
  }

  /** What the cap leaves: everything when there is no positive cap. */
  function Trim(cap: int, es: seq<Entry>): seq<Entry> {
    if cap > 0 then es[Cut(cap, es)..] else es
  }

  /** `kept` is the longest suffix of `all` holding at most `cap` records. */
  ghost predicate LongestFittingSuffix(cap: nat, all: seq<Entry>, kept: seq<Entry>) {
    && |kept| <= |all|
    && kept == all[|all| - |kept|..]
    && Total(kept) <= cap
    && forall start :: 0 <= start < |all| - |kept| ==> Total(all[start..]) > cap
  }

  lemma TrimIsLongestFittingSuffix(cap: nat, all: seq<Entry>)
    requires cap > 0
    ensures LongestFittingSuffix(cap, all, Trim(cap, all))
  {
    forall start | 0 <= start < Cut(cap, all)
      ensures Total(all[start..]) > cap
    {
      CutIsLeast(cap, all, start);
    }
  }

  /** The entry at `j` survives the cap exactly when it and everything after it fit. */
  lemma {:induction false} SurvivesIffSuffixFits(cap: int, es: seq<Entry>, j: nat)
    requires j < |es|
    ensures |Trim(cap, es)| <= |es|
    ensures |es| - |Trim(cap, es)| <= j <==> (cap <= 0 || Total(es[j..]) <= cap)
  {
    if cap > 0 {
      if j < Cut(cap, es) {
        CutIsLeast(cap, es, j);
      } else {
        TotalShrinks(es, Cut(cap, es), j);
      }
    }
  }

  lemma SuffixOfAppend(all: seq<Entry>, e: Entry, k: nat, j: nat)
    requires k <= |all| && k <= j <= |all| + 1
    ensures (all + [e])[j..] == (all[k..] + [e])[j - k..]
  {
  }

  lemma {:induction false} ComposedCutFits(cap: nat, all: seq<Entry>, e: Entry, k: nat, m: nat)
    requires k == Cut(cap, all) && m == Cut(cap, all[k..] + [e])
    ensures Total((all + [e])[k + m..]) <= cap
  {
    hide Total, Cut;
    SuffixOfAppend(all, e, k, k + m);
  }

  lemma {:induction false} BelowComposedCut(cap: nat, all: seq<Entry>, e: Entry, k: nat, m: nat)
    requires k == Cut(cap, all) && m == Cut(cap, all[k..] + [e]) && k + m > 0
    ensures Total((all + [e])[k + m - 1..]) > cap
  {
    hide Total, Cut;
    if m > 0 {
      CutIsLeast(cap, all[k..] + [e], m - 1);
      SuffixOfAppend(all, e, k, k + m - 1);
    } else {
      CutIsLeast(cap, all, k - 1);
      TotalSnoc(all[k - 1..], e);
      assert (all + [e])[k - 1..] == all[k - 1..] + [e];
    }
  }

  /** The cut of a longer history is reached by cutting what an earlier cut left. */
  lemma {:induction false} CutCompose(cap: nat, all: seq<Entry>, e: Entry, k: nat, m: nat)
    requires k == Cut(cap, all) && m == Cut(cap, all[k..] + [e])
    ensures Cut(cap, all + [e]) == k + m
  {
    ComposedCutFits(cap, all, e, k, m);
    if k + m > 0 {
      BelowComposedCut(cap, all, e, k, m);
    }
    CutUnique(cap, all + [e], k + m);
  }

  /** Trimming after every append is the same as trimming the whole history once. */
  lemma {:induction false} TrimIncremental(cap: int, all: seq<Entry>, e: Entry)
    ensures Trim(cap, Trim(cap, all) + [e]) == Trim(cap, all + [e])
  {
    if cap > 0 {
      var k := Cut(cap, all);
      TrimAfterCut(cap, all, e, k, Cut(cap, all[k..] + [e]));
    }
  }

  lemma {:induction false} TrimAfterCut(cap: nat, all: seq<Entry>, e: Entry, k: nat, m: nat)
    requires cap > 0 && k == Cut(cap, all) && m == Cut(cap, all[k..] + [e])
    ensures (all[k..] + [e])[m..] == Trim(cap, all + [e])
  {
    CutCompose(cap, all, e, k, m);
    SuffixOfAppend(all, e, k, k + m);
  }

  /** The newest entry survives the cap exactly when it fits on its own. */
  lemma {:induction false} NewestSurvivesIffItFits(cap: nat, older: seq<Entry>, e: Entry)
    requires cap > 0
    ensures (Trim(cap, older + [e]) != [] && e == Trim(cap, older + [e])[|Trim(cap, older + [e])| - 1])
            <==> |e.records| <= cap
  {
    var all := older + [e];
    var k := Cut(cap, all);
    assert all[|older|..] == [e];
    assert Total([e]) == |e.records|;
    if k > |older| {
      CutIsLeast(cap, all, |older|);
    } else {
      assert all[k..] == older[k..] + [e];
      TotalSnoc(older[k..], e);
    }
  }

  // ---------- grouping by topic ----------

  function TopicRecords(topic: string, es: seq<Entry>): seq<KafkaRecord> {
    if es == [] then []
    else (if es[0].topic == topic then es[0].records else []) + TopicRecords(topic, es[1..])
  }

  lemma {:induction false} TopicRecordsConcat(topic: string, a: seq<Entry>, b: seq<Entry>)
    ensures TopicRecords(topic, a + b) == TopicRecords(topic, a) + TopicRecords(topic, b)
  {
    if a == [] {
      assert a + b == b;
    } else {
      assert (a + b)[1..] == a[1..] + b;
      TopicRecordsConcat(topic, a[1..], b);
    }
  }

  /** The topics a flush has to visit. */
  function Topics(es: seq<Entry>): set<string> {
    set e | e in es :: e.topic
  }

  lemma {:induction false} TopicRecordsElsewhere(topic: string, es: seq<Entry>)
    requires topic !in Topics(es)
    ensures TopicRecords(topic, es) == []
  {
    if es == [] {
    } else {
      assert es[0] in es;
      forall e | e in es[1..] ensures e in es {}
      assert topic !in Topics(es[1..]);
      TopicRecordsElsewhere(topic, es[1..]);
    }
  }

  /** A visiting order: the flush ranges over a Go map, so any duplicate-free order of the topics. */
  ghost predicate VisitsEachTopicOnce(order: seq<string>, topics: set<string>) {
    && (forall t :: t in order <==> t in topics)
    && (forall i, j :: 0 <= i < j < |order| ==> order[i] != order[j])
  }

  // ---------- splitting into batches ----------

  /** The slices of one topic's records, each of at most `maxSize` (no limit when not positive). */
  function Chunks(maxSize: int, rs: seq<KafkaRecord>): seq<seq<KafkaRecord>>
    decreases |rs|
  {
    if rs == [] then []
    else if maxSize <= 0 || |rs| <= maxSize then [rs]
    else [rs[..maxSize]] + Chunks(maxSize, rs[maxSize..])
  }

  function Flatten(parts: seq<seq<KafkaRecord>>): seq<KafkaRecord> {
    if parts == [] then [] else parts[0] + Flatten(parts[1..])
  }

  /** Splitting loses and reorders nothing, never makes an empty slice, and makes as few as it can. */
  lemma {:induction false} ChunksPartition(maxSize: int, rs: seq<KafkaRecord>)
    ensures Flatten(Chunks(maxSize, rs)) == rs
    ensures forall c :: c in Chunks(maxSize, rs) ==> 0 < |c| && (maxSize > 0 ==> |c| <= maxSize)
    ensures maxSize > 0 ==> |Chunks(maxSize, rs)| == (|rs| + maxSize - 1) / maxSize
    ensures maxSize <= 0 ==> |Chunks(maxSize, rs)| == if rs == [] then 0 else 1
    decreases |rs|
  {
    if rs == [] {
      if maxSize > 0 { CeilSmall(0, maxSize); }
    } else if maxSize <= 0 || |rs| <= maxSize {
      assert Flatten([rs]) == rs + Flatten([rs][1..]);
      if maxSize > 0 { CeilSmall(|rs|, maxSize); }
    } else {
      var rest := rs[maxSize..];
      ChunksPartition(maxSize, rest);
      var cs := Chunks(maxSize, rs);
      assert cs[1..] == Chunks(maxSize, rest);
      assert rs == rs[..maxSize] + rest;
      CeilStep(|rs|, maxSize);
    }
  }

  lemma CeilSmall(n: nat, m: nat)
    requires 0 < m && n <= m
    ensures (n + m - 1) / m == if n == 0 then 0 else 1
  {
    QuotientUnique(n + m - 1, m, if n == 0 then 0 else 1);
  }

  lemma CeilStep(n: nat, m: nat)
    requires 0 < m < n
    ensures (n + m - 1) / m == 1 + ((n - m) + m - 1) / m
  {
    var q := (n - 1) / m;
    assert (q + 1) * m == q * m + m;
    QuotientUnique(n + m - 1, m, q + 1);
  }

  lemma QuotientUnique(x: nat, m: nat, q: nat)
    requires 0 < m && q * m <= x < q * m + m
    ensures x / m == q
  {
    var r := x / m;
    assert x == r * m + x % m;
    TimesMonotone(r + 1, q, m);
    TimesMonotone(q + 1, r, m);
  }

  lemma TimesMonotone(a: nat, b: nat, m: nat)
    ensures a <= b ==> a * m <= b * m
  {
  }

  function AsBatches(topic: string, chunks: seq<seq<KafkaRecord>>): (bs: seq<Batch>)
    ensures |bs| == |chunks|
    ensures forall i :: 0 <= i < |bs| ==> bs[i] == Batch(topic, chunks[i])
  {
    seq(|chunks|, i requires 0 <= i < |chunks| => Batch(topic, chunks[i]))
  }

  /** Everything one flush hands to `sendBatch`, visiting the topics in the given order. */
  function Batches(maxSize: int, order: seq<string>, es: seq<Entry>): seq<Batch> {
    if order == [] then []
    else AsBatches(order[0], Chunks(maxSize, TopicRecords(order[0], es))) + Batches(maxSize, order[1..], es)
  }

  lemma {:induction false} BatchesSnoc(maxSize: int, order: seq<string>, t: string, es: seq<Entry>)
    ensures Batches(maxSize, order + [t], es)
         == Batches(maxSize, order, es) + AsBatches(t, Chunks(maxSize, TopicRecords(t, es)))
  {
    if order == [] {
      assert order + [t] == [t];
      assert [t][1..] == [];
    } else {
      assert (order + [t])[1..] == order[1..] + [t];
      BatchesSnoc(maxSize, order[1..], t, es);
    }
  }

  /** What the batches in `bs` carry for one topic, in the order they are sent. */
  function SentFor(topic: string, bs: seq<Batch>): seq<KafkaRecord> {
    if bs == [] then []
    else (if bs[0].topic == topic then bs[0].records else []) + SentFor(topic, bs[1..])
  }

  lemma {:induction false} SentForConcat(topic: string, a: seq<Batch>, b: seq<Batch>)
    ensures SentFor(topic, a + b) == SentFor(topic, a) + SentFor(topic, b)
  {
    if a == [] {
      assert a + b == b;
    } else {
      assert (a + b)[1..] == a[1..] + b;
      SentForConcat(topic, a[1..], b);
    }
  }

  lemma {:induction false} SentForAsBatches(topic: string, t: string, chunks: seq<seq<KafkaRecord>>)
    ensures SentFor(topic, AsBatches(t, chunks)) == if t == topic then Flatten(chunks) else []
  {
    if chunks == [] {
    } else {
      assert AsBatches(t, chunks)[1..] == AsBatches(t, chunks[1..]);
      SentForAsBatches(topic, t, chunks[1..]);
    }
  }

  lemma {:induction false} SentForOrder(topic: string, maxSize: int, order: seq<string>, es: seq<Entry>)
    requires forall i, j :: 0 <= i < j < |order| ==> order[i] != order[j]
    ensures SentFor(topic, Batches(maxSize, order, es))
         == if topic in order then TopicRecords(topic, es) else []
  {
    if order == [] {
    } else {
      var head, rest := order[0], order[1..];
      var chunks := Chunks(maxSize, TopicRecords(head, es));
      assert Batches(maxSize, order, es) == AsBatches(head, chunks) + Batches(maxSize, rest, es);
      assert forall j :: 0 <= j < |rest| ==> rest[j] == order[j + 1] != head;
      assert topic in order <==> topic == head || topic in rest;
      hide Chunks, TopicRecords, AsBatches, Batches, SentFor, Flatten;
      SentForConcat(topic, AsBatches(head, chunks), Batches(maxSize, rest, es));
      SentForAsBatches(topic, head, chunks);
      ChunksPartition(maxSize, TopicRecords(head, es));
      SentForOrder(topic, maxSize, rest, es);
    }
  }

  /** A flush hands over, for every topic, exactly that topic's records in acceptance order,
      whatever order it visits the topics in. */
  lemma FlushDeliversEveryTopic(topic: string, maxSize: int, order: seq<string>, es: seq<Entry>)
    requires VisitsEachTopicOnce(order, Topics(es))
    ensures SentFor(topic, Batches(maxSize, order, es)) == TopicRecords(topic, es)
  {
    SentForOrder(topic, maxSize, order, es);
    if topic !in order {
      TopicRecordsElsewhere(topic, es);
    }
  }

  /** The batches of `bs` that go to one topic. */
  function BatchesOf(topic: string, bs: seq<Batch>): seq<Batch> {
    if bs == [] then []
    else (if bs[0].topic == topic then [bs[0]] else []) + BatchesOf(topic, bs[1..])
  }

  lemma {:induction false} BatchesOfConcat(topic: string, a: seq<Batch>, b: seq<Batch>)
    ensures BatchesOf(topic, a + b) == BatchesOf(topic, a) + BatchesOf(topic, b)
  {
    if a == [] {
      assert a + b == b;
    } else {
      assert (a + b)[1..] == a[1..] + b;
      BatchesOfConcat(topic, a[1..], b);
    }
  }

  lemma {:induction false} BatchesOfAsBatches(topic: string, t: string, chunks: seq<seq<KafkaRecord>>)
    ensures BatchesOf(topic, AsBatches(t, chunks)) == if t == topic then AsBatches(t, chunks) else []
  {
    if chunks == [] {
    } else {
      assert AsBatches(t, chunks)[1..] == AsBatches(t, chunks[1..]);
      assert AsBatches(t, chunks) == [Batch(t, chunks[0])] + AsBatches(t, chunks[1..]);
      BatchesOfAsBatches(topic, t, chunks[1..]);
    }
  }

  lemma {:induction false} BatchesOfOrder(topic: string, maxSize: int, order: seq<string>, es: seq<Entry>)
    requires forall i, j :: 0 <= i < j < |order| ==> order[i] != order[j]
    ensures BatchesOf(topic, Batches(maxSize, order, es))
         == if topic in order then AsBatches(topic, Chunks(maxSize, TopicRecords(topic, es))) else []
  {
    if order == [] {
    } else {
      var chunks := Chunks(maxSize, TopicRecords(order[0], es));
      BatchesOfConcat(topic, AsBatches(order[0], chunks), Batches(maxSize, order[1..], es));
      BatchesOfAsBatches(topic, order[0], chunks);
      BatchesOfOrder(topic, maxSize, order[1..], es);
      assert forall j :: 0 <= j < |order[1..]| ==> order[1..][j] == order[j + 1] != order[0];
      assert topic in order <==> topic == order[0] || topic in order[1..];
    }
  }

  /** A flush of n records for a topic makes ceil(n / maxSize) batches for it, none empty and none over
      the limit; with no limit it makes one. */
  lemma {:induction false} FlushSlices(topic: string, maxSize: int, order: seq<string>, es: seq<Entry>)
    requires VisitsEachTopicOnce(order, Topics(es)) && topic in Topics(es)
    ensures var n, bs := |TopicRecords(topic, es)|, BatchesOf(topic, Batches(maxSize, order, es));
            && (maxSize > 0 ==> |bs| == (n + maxSize - 1) / maxSize)
            && (maxSize <= 0 ==> |bs| == if n == 0 then 0 else 1)
            && (forall b :: b in bs ==> 0 < |b.records| && (maxSize > 0 ==> |b.records| <= maxSize))
  {
    hide Topics, TopicRecords, Chunks, Batches, BatchesOf;
    BatchesOfOrder(topic, maxSize, order, es);
    ChunksPartition(maxSize, TopicRecords(topic, es));
    var bs := BatchesOf(topic, Batches(maxSize, order, es));
    forall b | b in bs
      ensures 0 < |b.records| && (maxSize > 0 ==> |b.records| <= maxSize)
    {
      var i :| 0 <= i < |bs| && bs[i] == b;
      assert b.records in Chunks(maxSize, TopicRecords(topic, es));
    }
  }
}
