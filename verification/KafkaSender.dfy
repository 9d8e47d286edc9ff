/** The sender and the address refresher as objects; SenderProtocol interleaves their steps. */
module KafkaSender {
  import opened Records
  import opened KafkaFormat
  import GrokFormat
  import FlushProtocol
  import Batching
  import opened BufferedTransport

  /** One metric as `SendBatch` receives it: what to prepare, and the rows it converts to. */
  datatype Metric = Metric(request: Request, rows: seq<GrokFormat.EARSRow>)

  /** The records a metric contributes: none when it has no rows. */
  ghost predicate Contributes(m: Metric, records: seq<KafkaRecord>) {
    if m.rows == [] then records == [] else RecordsOf(m.request, m.rows, records)
  }

  ghost predicate Fails(m: Metric) {
    exists k: nat :: FirstFailure(m.request, m.rows, k)
  }

  class Sender {
    var transport: BufferedHTTPTransport
    const topic: string
    var closed: bool

    ghost predicate Valid()
      reads this, transport
    {
      transport.Valid() && (transport.closed <==> transport.stopped)
    }

    constructor (transport: BufferedHTTPTransport, topic: string)
      ensures this.transport == transport && this.topic == topic && !closed
    {
      this.transport := transport;
      this.topic := topic;
      closed := false;
    }

    /** Sends one metric: refused once closed; nothing to do without rows; all or nothing otherwise. */
    method Send(m: Metric) returns (ok: bool, ghost records: seq<KafkaRecord>)
      requires Valid()
      modifies transport
      ensures Valid()
      ensures ok && m.rows != [] ==>
                && RecordsOf(m.request, m.rows, records) && DistinctEsids(records)
                && transport.Guarded() == FlushProtocol.Enqueued(transport.batchCfg, old(transport.Guarded()),
                                                                 Entry(topic, records))
                && transport.droppedTotal == old(transport.droppedTotal)
                     + FlushProtocol.DroppedBy(transport.batchCfg, old(transport.Guarded()), Entry(topic, records))
                && (transport.flushToken <==> old(transport.flushToken)
                                              || transport.bufferCount >= transport.batchCfg.flushMessages)
      ensures !ok || m.rows == [] ==>
                transport.Guarded() == old(transport.Guarded()) && transport.droppedTotal == old(transport.droppedTotal)
                && transport.flushToken == old(transport.flushToken)
      ensures transport.handed == old(transport.handed) && transport.posts == old(transport.posts)
      ensures ok <==> !closed && (m.rows == [] || (!Fails(m) && !old(transport.closed)))
    {
      records := [];
      if closed {
        return false, records;
      }
      var prepared := PrepareRecords(m.request, m.rows);
      match prepared
      case NoRows =>
        ok := true;
      case FormatFailed(row) =>
        ok := false;
      case Ready(rs) =>
        records := rs;
        NoFailureAmong(m, rs);
        ok := transport.Deliver(topic, rs);
    }

    /** Sends several metrics as one entry holding all their records in order, or nothing at all when
        one of them cannot be formatted. */
    method SendBatch(data: seq<Metric>) returns (ok: bool, ghost parts: seq<seq<KafkaRecord>>)
      requires Valid()
      modifies transport
      ensures Valid()
      ensures ok ==> !closed && |parts| == |data| && forall i :: 0 <= i < |data| ==> Contributes(data[i], parts[i])
      ensures ok && Batching.Flatten(parts) != [] ==>
                var e := Entry(topic, Batching.Flatten(parts));
                && transport.Guarded() == FlushProtocol.Enqueued(transport.batchCfg, old(transport.Guarded()), e)
                && transport.droppedTotal == old(transport.droppedTotal)
                     + FlushProtocol.DroppedBy(transport.batchCfg, old(transport.Guarded()), e)
                && (transport.flushToken <==> old(transport.flushToken)
                                              || transport.bufferCount >= transport.batchCfg.flushMessages)
      ensures !ok || Batching.Flatten(parts) == [] ==>
                transport.Guarded() == old(transport.Guarded()) && transport.droppedTotal == old(transport.droppedTotal)
                && transport.flushToken == old(transport.flushToken)
      ensures transport.handed == old(transport.handed) && transport.posts == old(transport.posts)
      ensures ok <==> && !closed && (forall i :: 0 <= i < |data| ==> !Fails(data[i]))
                      && (old(transport.closed) ==> forall i :: 0 <= i < |data| ==> data[i].rows == [])
    {
      hide Contributes, Fails, FlushProtocol.Kept, FlushProtocol.DroppedBy;
      parts := [];
      if closed {
        return false, parts;
      }
      var prepared, allRecords;
      prepared, allRecords, parts := PrepareAll(data);
      if !prepared {
        return false, parts;
      }
      if |allRecords| == 0 {
        return true, parts;
      }
      ok := transport.Deliver(topic, allRecords);
    }

    /** The loop of `SendBatch`: the records of all metrics in order, unless one cannot be formatted. */
    method PrepareAll(data: seq<Metric>)
      returns (ok: bool, allRecords: seq<KafkaRecord>, ghost parts: seq<seq<KafkaRecord>>)
      ensures ok <==> forall i :: 0 <= i < |data| ==> !Fails(data[i])
      ensures ok ==> |parts| == |data| && forall i :: 0 <= i < |data| ==> Contributes(data[i], parts[i])
      ensures ok ==> allRecords == Batching.Flatten(parts)
      ensures ok ==> (allRecords == [] <==> forall i :: 0 <= i < |data| ==> data[i].rows == [])
    {
      parts := [];
      allRecords := [];
      for i := 0 to |data|
        invariant |parts| == i && allRecords == Batching.Flatten(parts)
        invariant forall j :: 0 <= j < i ==> Contributes(data[j], parts[j]) && !Fails(data[j])
        invariant allRecords == [] <==> forall j :: 0 <= j < i ==> data[j].rows == []
      {
        var prepared := PrepareRecords(data[i].request, data[i].rows);
        ghost var part: seq<KafkaRecord> := [];
        match prepared {
          case NoRows =>
            assert allRecords == allRecords + [];
            assert !Fails(data[i]);
          case FormatFailed(row) =>
            assert Fails(data[i]) by { assert FirstFailure(data[i].request, data[i].rows, row); }
            return false, allRecords, parts;
          case Ready(rs) =>
            NoFailureAmong(data[i], rs);
            allRecords := allRecords + rs;
            part := rs;
        }
        FlattenSnoc(parts, part);
        parts := parts + [part];
      }
      ok := true;
    }

    /** Installs a new transport and returns the displaced one; refused once closed. */
    method SwapTransport(next: BufferedHTTPTransport) returns (prev: BufferedHTTPTransport?)
      modifies this`transport
      ensures closed ==> prev == null && transport == old(transport)
      ensures !closed ==> prev == old(transport) && transport == next
    {
      if closed {
        return null;
      }
      prev := transport;
      transport := next;
    }

    /** Closes the sender and its current transport, once; the transport hands over what it still holds. */
    method Close() returns (ghost order: seq<string>, ghost made: seq<Post>)
      requires Valid()
      modifies this`closed, transport
      ensures Valid() && closed && transport == old(transport)
      ensures old(closed) || old(transport.closed) ==>
                transport.handed == old(transport.handed) && transport.posts == old(transport.posts)
                && transport.Guarded() == old(transport.Guarded())
      ensures !old(closed) && !old(transport.closed) ==>
                && transport.Guarded() == FlushProtocol.Emptied(old(transport.Guarded())).(closed := true)
                && Batching.VisitsEachTopicOnce(order, Batching.Topics(old(transport.buffer)))
                && transport.handed == old(transport.handed)
                                       + Batching.Batches(transport.batchCfg.maxBatchSize, order, old(transport.buffer))
                && transport.posts == old(transport.posts) + made
                && EachTried(Batching.Batches(transport.batchCfg.maxBatchSize, order, old(transport.buffer)),
                             transport.encodes, transport.batchCfg.maxRetries, made)
    {
      order, made := [], [];
      if closed {
        return;
      }
      closed := true;
      order, made := transport.Close();
    }
  }

  lemma NoFailureAmong(m: Metric, records: seq<KafkaRecord>)
    requires RecordsOf(m.request, m.rows, records)
    ensures !Fails(m)
  {
    forall k: nat ensures !FirstFailure(m.request, m.rows, k) {
      OutcomesExclusive(m.request, m.rows, records, k, k);
    }
  }

  lemma {:induction false} FlattenSnoc(parts: seq<seq<KafkaRecord>>, part: seq<KafkaRecord>)
    ensures Batching.Flatten(parts + [part]) == Batching.Flatten(parts) + part
  {
    if parts == [] {
      assert parts + [part] == [part];
      assert [part][1..] == [];
    } else {
      assert (parts + [part])[1..] == parts[1..] + [part];
      FlattenSnoc(parts[1..], part);
    }
  }

  class Refresher {
    var currentAddr: string

    constructor (initialAddr: string)
      ensures currentAddr == initialAddr
    {
      currentAddr := initialAddr;
    }

    /** One refresh. `fetched` is the looked-up address, if the lookup succeeded, and `built` the
        transport the factory made for it, if it did. The displaced transport is returned for its
        closer; a transport the sender refuses is closed here. */
    method RefreshOnce(sender: Sender, fetched: Option<string>, built: BufferedHTTPTransport?)
      returns (toClose: BufferedHTTPTransport?)
      requires built != null ==> built.Valid() && (built.closed <==> built.stopped) && built != sender.transport
      modifies this, sender`transport, built
      ensures sender.closed == old(sender.closed)
      ensures var changed := fetched.Some? && fetched.value != old(currentAddr) && built != null;
              && (changed && !sender.closed ==>
                    sender.transport == built && currentAddr == fetched.value && toClose == old(sender.transport)
                    && built.Guarded() == old(built.Guarded()))
              && (!(changed && !sender.closed) ==>
                    sender.transport == old(sender.transport) && currentAddr == old(currentAddr) && toClose == null)
              && (changed && sender.closed ==> built.closed)
              && (built != null && !(changed && sender.closed) ==>
                    built.Guarded() == old(built.Guarded()) && built.handed == old(built.handed)
                    && built.stopped == old(built.stopped))
    {
      toClose := null;
      if fetched.None? {
        return;
      }
      var newAddr := fetched.value;
      if newAddr == currentAddr {
        return;
      }
      if built == null {
        return;
      }
      var prev := sender.SwapTransport(built);
      if prev == null {
        var _, _ := built.Close();
        return;
      }
      currentAddr := newAddr;
      toClose := prev;
    }
  }
}
