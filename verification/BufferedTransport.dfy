/** The transport's own code, one object updated in place. Every method is proved against the
    specification functions that the concurrent protocol in FlushProtocol is made of. */
module BufferedTransport {
  import opened Records
  import opened Batching
  import FlushProtocol

  /** One HTTP POST of a batch and whether the proxy accepted it. */
  datatype Post = Post(batch: Batch, ok: bool)

  /** The posts one `sendBatch` makes: all of the same batch and none after a success. A batch that cannot
      be encoded is not posted, nor is any with a negative number of retries; every other one is posted
      until a post succeeds or `maxRetries` retries have followed the first post. */
  ghost predicate AttemptsOf(b: Batch, encodes: Batch -> bool, maxRetries: int, posts: seq<Post>) {
    && (forall i :: 0 <= i < |posts| ==> posts[i].batch == b)
    && (forall i :: 0 <= i < |posts| - 1 ==> !posts[i].ok)
    && (if encodes(b) && maxRetries >= 0
        then 1 <= |posts| <= maxRetries + 1 && (posts[|posts| - 1].ok || |posts| == maxRetries + 1)
        else posts == [])
  }

  /** `ps` is what sending the batches `bs` one after the other posts. */
  ghost predicate PostsOf(bs: seq<Batch>, encodes: Batch -> bool, maxRetries: int, ps: seq<Post>)
    decreases |bs|, 1
  {
    if bs == [] then ps == []
    else
      exists k :: 0 <= k <= |ps| && SentThenRest(bs, encodes, maxRetries, ps, k)
  }

  ghost predicate SentThenRest(bs: seq<Batch>, encodes: Batch -> bool, maxRetries: int, ps: seq<Post>, k: nat)
    requires bs != [] && k <= |ps|
    decreases |bs|, 0
  {
    AttemptsOf(bs[0], encodes, maxRetries, ps[..k]) && PostsOf(bs[1..], encodes, maxRetries, ps[k..])
  }

  lemma {:induction false} PostsOfConcat(
    a: seq<Batch>, b: seq<Batch>, encodes: Batch -> bool, maxRetries: int, pa: seq<Post>, pb: seq<Post>)
    requires PostsOf(a, encodes, maxRetries, pa) && PostsOf(b, encodes, maxRetries, pb)
    ensures PostsOf(a + b, encodes, maxRetries, pa + pb)
  {
    if a == [] {
      assert a + b == b && pa + pb == pb;
    } else {
      var k :| 0 <= k <= |pa| && SentThenRest(a, encodes, maxRetries, pa, k);
      PostsOfConcat(a[1..], b, encodes, maxRetries, pa[k..], pb);
      assert (a + b)[1..] == a[1..] + b;
      assert (pa + pb)[..k] == pa[..k];
      assert (pa + pb)[k..] == pa[k..] + pb;
      assert SentThenRest(a + b, encodes, maxRetries, pa + pb, k);
    }
  }

  lemma PostsOfOne(b: Batch, encodes: Batch -> bool, maxRetries: int, ps: seq<Post>)
    requires AttemptsOf(b, encodes, maxRetries, ps)
    ensures PostsOf([b], encodes, maxRetries, ps)
  {
    assert ps[..|ps|] == ps;
    assert SentThenRest([b], encodes, maxRetries, ps, |ps|);
  }

  /** Somewhere in `ps` is a run of posts of `b`, at least one and at most `maxRetries + 1`, that ends with a
      success or has used up all retries. */
  ghost predicate Tried(b: Batch, maxRetries: int, ps: seq<Post>) {
    exists lo, hi :: 0 <= lo < hi <= |ps| && TriedIn(b, maxRetries, ps, lo, hi)
  }

  ghost predicate TriedIn(b: Batch, maxRetries: int, ps: seq<Post>, lo: nat, hi: nat)
    requires lo < hi <= |ps|
  {
    && (forall i :: lo <= i < hi ==> ps[i].batch == b)
    && hi - lo <= maxRetries + 1
    && (ps[hi - 1].ok || hi - lo == maxRetries + 1)
  }

  /** Every batch that can be encoded is posted at least once, and retried as configured; no other is. */
  ghost predicate EachTried(bs: seq<Batch>, encodes: Batch -> bool, maxRetries: int, ps: seq<Post>) {
    && (maxRetries >= 0 ==> forall b :: b in bs && encodes(b) ==> Tried(b, maxRetries, ps))
    && (forall i :: 0 <= i < |ps| ==> ps[i].batch in bs && encodes(ps[i].batch))
  }

  lemma {:induction false} PostsTryEach(bs: seq<Batch>, encodes: Batch -> bool, maxRetries: int, ps: seq<Post>)
    requires PostsOf(bs, encodes, maxRetries, ps)
    ensures EachTried(bs, encodes, maxRetries, ps)
  {
    if bs == [] {
    } else {
      var k :| 0 <= k <= |ps| && SentThenRest(bs, encodes, maxRetries, ps, k);
      PostsTryEach(bs[1..], encodes, maxRetries, ps[k..]);
      forall b | b in bs && encodes(b) && maxRetries >= 0
        ensures Tried(b, maxRetries, ps)
      {
        if b == bs[0] {
          assert TriedIn(b, maxRetries, ps, 0, k);
        } else {
          assert b in bs[1..];
          TriedLater(b, maxRetries, ps, k);
        }
      }
      forall i | 0 <= i < |ps|
        ensures ps[i].batch in bs && encodes(ps[i].batch)
      {
        assert ps[i] == if i < k then ps[..k][i] else ps[k..][i - k];
      }
    }
  }

  lemma TriedLater(b: Batch, maxRetries: int, ps: seq<Post>, k: nat)
    requires k <= |ps| && Tried(b, maxRetries, ps[k..])
    ensures Tried(b, maxRetries, ps)
  {
    var lo, hi :| 0 <= lo < hi <= |ps[k..]| && TriedIn(b, maxRetries, ps[k..], lo, hi);
    forall i | k + lo <= i < k + hi
      ensures ps[i].batch == b
    {
      assert ps[i] == ps[k..][i - k];
    }
    assert TriedIn(b, maxRetries, ps, k + lo, k + hi);
  }

  class BufferedHTTPTransport {
    const batchCfg: BatchConfig
    /** Whether a batch can be encoded as JSON. */
    const encodes: Batch -> bool
    var buffer: seq<Entry>
    var bufferCount: int
    var topic: string
    var closed: bool
    var bufferCountObs: int
    var droppedTotal: nat
    var bufferHighWaterMark: int
    var flushToken: bool
    var stopped: bool
    ghost var handed: seq<Batch>
    ghost var posts: seq<Post>

    ghost function Guarded(): FlushProtocol.Core
      reads this
    {
      FlushProtocol.Core(buffer, bufferCount, topic, closed, bufferCountObs, bufferHighWaterMark)
    }

    ghost predicate Valid()
      reads this
    {
      bufferCount == bufferCountObs == Total(buffer)
    }

    constructor (cfg: BatchConfig, encodes: Batch -> bool)
      ensures Valid() && batchCfg == cfg && this.encodes == encodes
      ensures Guarded() == FlushProtocol.Fresh().core && droppedTotal == 0 && !flushToken && !stopped
      ensures handed == [] && posts == []
    {
      batchCfg, this.encodes := cfg, encodes;
      buffer, bufferCount, topic, closed := [], 0, "", false;
      bufferCountObs, droppedTotal, bufferHighWaterMark := 0, 0, 0;
      flushToken, stopped := false, false;
      handed, posts := [], [];
    }

    /** The critical section of `Deliver`: append, drop oldest entries over the cap, update the gauges. */
    method Enqueue(topic: string, records: seq<KafkaRecord>) returns (droppedCount: nat, flushNeeded: bool)
      requires Valid() && !closed
      modifies this
      ensures Valid()
      ensures Guarded() == FlushProtocol.Enqueued(batchCfg, old(Guarded()), Entry(topic, records))
      ensures droppedCount == FlushProtocol.DroppedBy(batchCfg, old(Guarded()), Entry(topic, records))
      ensures this.topic == topic && (flushNeeded <==> bufferCount >= batchCfg.flushMessages)
      ensures droppedTotal == old(droppedTotal) && flushToken == old(flushToken) && stopped == old(stopped)
      ensures handed == old(handed) && posts == old(posts)
    {
      hide Total, Trim;
      ghost var all := buffer + [Entry(topic, records)];
      buffer := buffer + [Entry(topic, records)];
      bufferCount := bufferCount + |records|;
      this.topic := topic;
      TotalSnoc(old(buffer), Entry(topic, records));

      droppedCount := DropOldest(batchCfg.maxBufferedRecords);
      assert buffer == Trim(batchCfg.maxBufferedRecords, all);

      var cur := bufferCount;
      bufferCountObs := cur;
      if cur > bufferHighWaterMark {
        bufferHighWaterMark := cur;
      }
      flushNeeded := bufferCount >= batchCfg.flushMessages;
    }

    /** The drop loop of `Deliver`. */
    method DropOldest(cap: int) returns (droppedCount: nat)
      requires bufferCount == Total(buffer)
      modifies this`buffer, this`bufferCount
      ensures buffer == Trim(cap, old(buffer))
      ensures bufferCount == Total(buffer) && droppedCount == Total(old(buffer)) - Total(buffer)
    {
      droppedCount := 0;
      if cap <= 0 {
        return;
      }
      ghost var all, d := buffer, 0;
      assert all[0..] == all;
      while bufferCount > cap && |buffer| > 0
        invariant d <= Cut(cap, all) && buffer == all[d..]
        invariant bufferCount == Total(buffer) && droppedCount == Total(all) - bufferCount
        decreases |buffer|
      {
        hide Cut, Total;
        TotalSplit(buffer, 1);
        TotalOfFirst(buffer);
        droppedCount := droppedCount + |buffer[0].records|;
        bufferCount := bufferCount - |buffer[0].records|;
        buffer := buffer[1..];
        d := d + 1;
      }
      if d < Cut(cap, all) {
        CutIsLeast(cap, all, d);
      }
    }

    /** `Deliver` run without interference. An empty call does nothing; a closed transport refuses. */
    method Deliver(topic: string, records: seq<KafkaRecord>) returns (ok: bool)
      requires Valid()
      modifies this
      ensures Valid()
      ensures ok <==> records == [] || !old(closed)
      ensures handed == old(handed) && posts == old(posts) && stopped == old(stopped)
      ensures records == [] || old(closed) ==>
                Guarded() == old(Guarded()) && droppedTotal == old(droppedTotal) && flushToken == old(flushToken)
      ensures records != [] && !old(closed) ==>
                var e := Entry(topic, records);
                && Guarded() == FlushProtocol.Enqueued(batchCfg, old(Guarded()), e)
                && droppedTotal == old(droppedTotal) + FlushProtocol.DroppedBy(batchCfg, old(Guarded()), e)
                && (flushToken <==> old(flushToken) || bufferCount >= batchCfg.flushMessages)
    {
      if |records| == 0 {
        return true;
      }
      if closed {
        return false;
      }
      var droppedCount, flushNeeded := Enqueue(topic, records);
      if droppedCount > 0 {
        droppedTotal := droppedTotal + droppedCount;
      }
      if flushNeeded {
        flushToken := true;
      }
      ok := true;
    }

    /** The critical section of `flush`. */
    method TakeAll() returns (entries: seq<Entry>)
      requires Valid()
      modifies this
      ensures Valid()
      ensures entries == old(buffer)
      ensures Guarded() == FlushProtocol.Emptied(old(Guarded()))
      ensures handed == old(handed) && posts == old(posts) && stopped == old(stopped)
      ensures droppedTotal == old(droppedTotal) && flushToken == old(flushToken)
    {
      if |buffer| == 0 {
        return [];
      }
      entries := buffer;
      buffer := [];
      bufferCount := 0;
      bufferCountObs := 0;
    }

    /** The per-topic aggregation loop of `flush`. */
    method GroupByTopic(entries: seq<Entry>) returns (topicRecords: map<string, seq<KafkaRecord>>)
      ensures topicRecords.Keys == Topics(entries)
      ensures forall t :: t in topicRecords ==> topicRecords[t] == TopicRecords(t, entries)
    {
      topicRecords := map[];
      for i := 0 to |entries|
        invariant topicRecords.Keys == Topics(entries[..i])
        invariant forall t :: t in topicRecords ==> topicRecords[t] == TopicRecords(t, entries[..i])
      {
        var e := entries[i];
        assert entries[..i + 1] == entries[..i] + [e];
        forall t ensures TopicRecords(t, entries[..i + 1])
          == TopicRecords(t, entries[..i]) + if e.topic == t then e.records else []
        {
          TopicRecordsConcat(t, entries[..i], [e]);
          assert TopicRecords(t, [e]) == (if e.topic == t then e.records else []) + TopicRecords(t, [e][1..]);
        }
        if e.topic !in topicRecords {
          TopicRecordsElsewhere(e.topic, entries[..i]);
        }
        topicRecords := topicRecords[e.topic := (if e.topic in topicRecords then topicRecords[e.topic] else []) + e.records];
      }
      assert entries[..|entries|] == entries;
    }

    /** `flush`: everything buffered is handed to `sendBatch`, topic by topic in some order. */
    method Flush() returns (ghost order: seq<string>, ghost made: seq<Post>)
      requires Valid()
      modifies this
      ensures Valid()
      ensures Guarded() == FlushProtocol.Emptied(old(Guarded()))
      ensures VisitsEachTopicOnce(order, Topics(old(buffer)))
      ensures handed == old(handed) + Batches(batchCfg.maxBatchSize, order, old(buffer))
      ensures posts == old(posts) + made
      ensures PostsOf(Batches(batchCfg.maxBatchSize, order, old(buffer)), encodes, batchCfg.maxRetries, made)
      ensures EachTried(Batches(batchCfg.maxBatchSize, order, old(buffer)), encodes, batchCfg.maxRetries, made)
      ensures droppedTotal == old(droppedTotal) && flushToken == old(flushToken) && stopped == old(stopped)
    {
      var entries := TakeAll();
      order, made := [], [];
      if |entries| > 0 {
        var topicRecords := GroupByTopic(entries);
        order, made := SendAll(entries, topicRecords);
      }
      PostsTryEach(Batches(batchCfg.maxBatchSize, order, entries), encodes, batchCfg.maxRetries, made);
    }

    /** The loop of `flush` over the topic map. */
    method SendAll(ghost entries: seq<Entry>, topicRecords: map<string, seq<KafkaRecord>>)
      returns (ghost order: seq<string>, ghost made: seq<Post>)
      requires topicRecords.Keys == Topics(entries)
      requires forall t :: t in topicRecords ==> topicRecords[t] == TopicRecords(t, entries)
      modifies this`handed, this`posts
      ensures VisitsEachTopicOnce(order, Topics(entries))
      ensures handed == old(handed) + Batches(batchCfg.maxBatchSize, order, entries)
      ensures posts == old(posts) + made
      ensures PostsOf(Batches(batchCfg.maxBatchSize, order, entries), encodes, batchCfg.maxRetries, made)
    {
      order, made := [], [];
      var left := topicRecords.Keys;
      ghost var all, h, p := Topics(entries), handed, posts;
      ghost var sent: seq<Batch> := [];
      while left != {}
        invariant left <= all == topicRecords.Keys
        invariant Visited(order, all, left)
        invariant SentInOrder(entries, order, sent, made)
        invariant handed == h + sent && posts == p + made
        decreases |left|
      {
        hide Visited, SentInOrder, Topics, TopicRecords;
        var t :| t in left;
        sent, made := SendTopic(t, topicRecords[t], entries, order, sent, made, h, p);
        VisitOneMore(order, all, left, t);
        order := order + [t];
        left := left - {t};
      }
      assert all - {} == all;
    }

    /** `sent` is what visiting the topics in `order` hands over and `made` what that posts. */
    ghost predicate SentInOrder(entries: seq<Entry>, order: seq<string>, sent: seq<Batch>, made: seq<Post>) {
      sent == Batches(batchCfg.maxBatchSize, order, entries) && PostsOf(sent, encodes, batchCfg.maxRetries, made)
    }

    /** One iteration of that loop. */
    method SendTopic(t: string, records: seq<KafkaRecord>, ghost entries: seq<Entry>, ghost order: seq<string>,
                     ghost sent: seq<Batch>, ghost made: seq<Post>, ghost h: seq<Batch>, ghost p: seq<Post>)
      returns (ghost sent': seq<Batch>, ghost made': seq<Post>)
      requires records == TopicRecords(t, entries)
      requires SentInOrder(entries, order, sent, made) && handed == h + sent && posts == p + made
      modifies this`handed, this`posts
      ensures SentInOrder(entries, order + [t], sent', made') && handed == h + sent' && posts == p + made'
    {
      hide Batches, PostsOf, TopicRecords, AsBatches, Chunks;
      ghost var next := AsBatches(t, Chunks(batchCfg.maxBatchSize, records));
      ghost var more := SendBatchWithSplit(t, records);
      BatchesSnoc(batchCfg.maxBatchSize, order, t, entries);
      PostsOfConcat(sent, next, encodes, batchCfg.maxRetries, made, more);
      assert h + sent + next == h + (sent + next);
      assert p + made + more == p + (made + more);
      sent', made' := sent + next, made + more;
    }

    /** Slices one topic's records and sends every slice in order. */
    method SendBatchWithSplit(topic: string, records: seq<KafkaRecord>) returns (ghost made: seq<Post>)
      modifies this`handed, this`posts
      ensures handed == old(handed) + AsBatches(topic, Chunks(batchCfg.maxBatchSize, records))
      ensures posts == old(posts) + made
      ensures PostsOf(AsBatches(topic, Chunks(batchCfg.maxBatchSize, records)), encodes, batchCfg.maxRetries, made)
    {
      var maxSize := batchCfg.maxBatchSize;
      if maxSize <= 0 {
        maxSize := |records|;
      }
      made := [];
      ghost var sent: seq<Batch> := [];
      ghost var h, p := handed, posts;
      var i := 0;
      assert records[0..] == records;
      while i < |records|
        invariant 0 <= i
        invariant SlicesSent(topic, records, Min(i, |records|), sent, made)
        invariant handed == h + sent && posts == p + made
        decreases |records| - i
      {
        hide SlicesSent;
        var end := i + maxSize;
        if end > |records| {
          end := |records|;
        }
        sent, made := SendSlice(topic, records, i, end, sent, made, h, p);
        i := i + maxSize;
        assert Min(i, |records|) == end;
      }
      assert records[|records|..] == [];
      assert sent + [] == sent;
    }

    /** `sent` is the slices before position `i`, and `made` what sending them posts. */
    ghost predicate SlicesSent(topic: string, records: seq<KafkaRecord>, i: int, sent: seq<Batch>, made: seq<Post>)
      requires 0 <= i <= |records|
    {
      var m := batchCfg.maxBatchSize;
      sent + Slices(topic, m, records, i) == Slices(topic, m, records, 0) && PostsOf(sent, encodes, batchCfg.maxRetries, made)
    }

    /** One iteration of the slicing loop. */
    method SendSlice(topic: string, records: seq<KafkaRecord>, i: int, end: int,
                     ghost sent: seq<Batch>, ghost made: seq<Post>, ghost h: seq<Batch>, ghost p: seq<Post>)
      returns (ghost sent': seq<Batch>, ghost made': seq<Post>)
      requires 0 <= i < |records|
      requires end == if batchCfg.maxBatchSize <= 0 || i + batchCfg.maxBatchSize > |records| then |records|
                      else i + batchCfg.maxBatchSize
      requires SlicesSent(topic, records, i, sent, made) && handed == h + sent && posts == p + made
      modifies this`handed, this`posts
      ensures SlicesSent(topic, records, end, sent', made') && handed == h + sent' && posts == p + made'
    {
      hide Slices, PostsOf;
      ghost var b := Batch(topic, records[i..end]);
      NextSlice(topic, batchCfg.maxBatchSize, records, i, end);
      ghost var tried := SendBatch(topic, records[i..end]);
      Extend(encodes, batchCfg.maxRetries, sent, b, made, tried);
      ghost var rest := Slices(topic, batchCfg.maxBatchSize, records, end);
      assert sent + ([b] + rest) == (sent + [b]) + rest;
      assert h + sent + [b] == h + (sent + [b]);
      assert p + made + tried == p + (made + tried);
      sent', made' := sent + [b], made + tried;
    }

    /** Posts one batch, retrying until a post succeeds or the retries are used up; a batch that cannot be
        encoded is given up without a post. */
    method SendBatch(topic: string, records: seq<KafkaRecord>) returns (ghost tried: seq<Post>)
      modifies this`handed, this`posts
      ensures handed == old(handed) + [Batch(topic, records)]
      ensures posts == old(posts) + tried
      ensures forall i :: 0 <= i < |tried| ==> tried[i].batch == Batch(topic, records)
      ensures forall i :: 0 <= i < |tried| - 1 ==> !tried[i].ok
      ensures encodes(Batch(topic, records)) && batchCfg.maxRetries >= 0 ==>
                && 1 <= |tried| <= batchCfg.maxRetries + 1
                && (tried[|tried| - 1].ok || |tried| == batchCfg.maxRetries + 1)
      ensures !encodes(Batch(topic, records)) || batchCfg.maxRetries < 0 ==> tried == []
    {
      ghost var b := Batch(topic, records);
      tried := [];
      handed := handed + [b];
      if !encodes(Batch(topic, records)) {
        return;
      }
      var attempt := 0;
      while attempt <= batchCfg.maxRetries
        invariant 0 <= attempt
        invariant attempt <= (if batchCfg.maxRetries < 0 then 0 else batchCfg.maxRetries + 1)
        invariant posts == old(posts) + tried && |tried| == attempt
        invariant handed == old(handed) + [b]
        invariant forall i :: 0 <= i < |tried| ==> tried[i] == Post(b, false)
      {
        var ok := DoPost(topic, records);
        posts := posts + [Post(b, ok)];
        tried := tried + [Post(b, ok)];
        assert posts == old(posts) + tried;
        if ok {
          return;
        }
        attempt := attempt + 1;
      }
    }

    /** The proxy's answer is outside this model: either outcome is possible. */
    method DoPost(topic: string, records: seq<KafkaRecord>) returns (ok: bool)
    {
      ok := *;
    }

    /** `Close` run without interference: refuses further deliveries, flushes what is left. Idempotent. */
    method Close() returns (ghost order: seq<string>, ghost made: seq<Post>)
      requires Valid() && (closed <==> stopped)
      modifies this
      ensures Valid() && closed && stopped
      ensures old(closed) ==> Guarded() == old(Guarded()) && handed == old(handed) && posts == old(posts)
      ensures !old(closed) ==>
                && Guarded() == FlushProtocol.Emptied(old(Guarded())).(closed := true)
                && VisitsEachTopicOnce(order, Topics(old(buffer)))
                && handed == old(handed) + Batches(batchCfg.maxBatchSize, order, old(buffer))
                && posts == old(posts) + made
                && PostsOf(Batches(batchCfg.maxBatchSize, order, old(buffer)), encodes, batchCfg.maxRetries, made)
                && EachTried(Batches(batchCfg.maxBatchSize, order, old(buffer)), encodes, batchCfg.maxRetries, made)
      ensures droppedTotal == old(droppedTotal) && flushToken == old(flushToken)
    {
      order, made := [], [];
      if closed {
        return;
      }
      closed := true;
      stopped := true;
      order, made := Flush();
    }

    method BufferStats() returns (count: int, dropped: int, hwm: int)
      requires Valid()
      ensures count == Total(buffer) && dropped == droppedTotal && hwm == bufferHighWaterMark
    {
      count, dropped, hwm := bufferCountObs, droppedTotal, bufferHighWaterMark;
    }
  }

  lemma TotalOfFirst(es: seq<Entry>)
    requires es != []
    ensures Total(es[..1]) == |es[0].records|
  {
    assert es[..1][1..] == [];
  }

  /** The topics of `all` visited so far, `left` being those still to visit. */
  ghost predicate Visited(order: seq<string>, all: set<string>, left: set<string>) {
    VisitsEachTopicOnce(order, all - left)
  }

  lemma VisitOneMore(order: seq<string>, all: set<string>, left: set<string>, t: string)
    requires Visited(order, all, left) && t in left && left <= all
    ensures Visited(order + [t], all, left - {t})
  {
    assert t !in order;
    assert all - left + {t} == all - (left - {t});
  }

  /** What the slicing loop still has to send at position `i`. */
  function Slices(topic: string, maxSize: int, records: seq<KafkaRecord>, i: int): seq<Batch>
    requires 0 <= i <= |records|
  {
    AsBatches(topic, Chunks(maxSize, records[i..]))
  }

  /** One iteration of the slicing loop peels off exactly the next slice. */
  lemma {:induction false} NextSlice(topic: string, maxSize: int, records: seq<KafkaRecord>, i: nat, end: nat)
    requires i < |records|
    requires end == if maxSize <= 0 || i + maxSize > |records| then |records| else i + maxSize
    ensures Slices(topic, maxSize, records, i)
         == [Batch(topic, records[i..end])] + Slices(topic, maxSize, records, end)
  {
    var rest := records[i..];
    assert rest[..end - i] == records[i..end];
    assert rest[end - i..] == records[end..];
    assert records[|records|..] == [];
    assert rest[..|rest|] == rest;
  }

  lemma Extend(encodes: Batch -> bool, maxRetries: int, sent: seq<Batch>, b: Batch, made: seq<Post>, tried: seq<Post>)
    requires PostsOf(sent, encodes, maxRetries, made) && AttemptsOf(b, encodes, maxRetries, tried)
    ensures PostsOf(sent + [b], encodes, maxRetries, made + tried)
  {
    PostsOfOne(b, encodes, maxRetries, tried);
    PostsOfConcat(sent, [b], encodes, maxRetries, made, tried);
  }
}
