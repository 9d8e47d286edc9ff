/** Turning metric rows into Kafka records, and the identifiers the records carry. */
module KafkaFormat {
  import opened Records
  import opened Decimal
  import opened GrokFormat

  // ---------- identifiers ----------

  function Esid(process: string, eqpId: string, metricType: string, timestampMs: int, counter: int): string {
    process + ":" + eqpId + "-" + metricType + "-" + Itoa(timestampMs) + "-" + Itoa(counter)
  }

  /** The part of `s` after its last hyphen. */
  function AfterLastHyphen(s: string): string {
    if s == "" || s[|s| - 1] == '-' then "" else AfterLastHyphen(s[..|s| - 1]) + [s[|s| - 1]]
  }

  lemma {:induction false} AfterLastHyphenOf(a: string, d: string)
    requires '-' !in d
    ensures AfterLastHyphen(a + "-" + d) == d
  {
    var s := a + "-" + d;
    if d != "" {
      var init := d[..|d| - 1];
      assert s[..|s| - 1] == a + "-" + init;
      assert s[|s| - 1] == d[|d| - 1] && d[|d| - 1] in d;
      assert forall c :: c in init ==> c in d;
      AfterLastHyphenOf(a, init);
    }
  }

  /** A text ending in a hyphen and a hyphen-free piece splits there in only one way. */
  lemma {:induction false} LastHyphen(a: string, d: string, a': string, d': string)
    requires a + "-" + d == a' + "-" + d'
    requires '-' !in d && '-' !in d'
    ensures a == a' && d == d'
  {
    hide AfterLastHyphen;
    AfterLastHyphenOf(a, d);
    AfterLastHyphenOf(a', d');
    assert a == (a + "-" + d)[..|a|];
    assert a' == (a' + "-" + d')[..|a'|];
  }

  lemma DigitsHaveNoHyphen(n: nat)
    ensures '-' !in Digits(n)
  {
    DigitsRoundTrip(n);
  }

  lemma DigitsInjective(m: nat, n: nat)
    requires Digits(m) == Digits(n)
    ensures m == n
  {
    DigitsRoundTrip(m);
    DigitsRoundTrip(n);
  }

  function Magnitude(i: int): nat {
    if i < 0 then -i else i
  }

  /** Everything before the hyphen that precedes the digits of the timestamp. */
  function BeforeDigits(prefix: string, metricType: string, timestampMs: int): string {
    if timestampMs < 0 then prefix + metricType + "-" else prefix + metricType
  }

  lemma {:induction false} EsidShape(process: string, eqpId: string, metricType: string, ts: int, counter: nat)
    ensures Esid(process, eqpId, metricType, ts, counter)
         == BeforeDigits(process + ":" + eqpId + "-", metricType, ts) + "-" + Digits(Magnitude(ts))
            + "-" + Digits(counter)
  {
    hide Digits;
    var prefix := process + ":" + eqpId + "-";
    if ts < 0 {
      assert prefix + metricType + "-" + ("-" + Digits(-ts)) == prefix + metricType + "-" + "-" + Digits(-ts);
    }
  }

  /** The one way two different identifiers coincide: one metric type is the other followed by a
      hyphen and the timestamps are opposite, so that the sign reads as the hyphen. */
  ghost predicate SignReadsAsHyphen(t1: string, ts1: int, t2: string, ts2: int) {
    t1 == t2 + "-" && ts1 > 0 && ts2 == -ts1
  }

  /** Exactly when two identifiers for the same equipment are equal. */
  lemma {:induction false} EsidEqualIff(process: string, eqpId: string,
                                        t1: string, ts1: int, c1: nat, t2: string, ts2: int, c2: nat)
    ensures Esid(process, eqpId, t1, ts1, c1) == Esid(process, eqpId, t2, ts2, c2)
            <==> c1 == c2 && ((t1 == t2 && ts1 == ts2)
                              || SignReadsAsHyphen(t1, ts1, t2, ts2) || SignReadsAsHyphen(t2, ts2, t1, ts1))
  {
    var prefix := process + ":" + eqpId + "-";
    EsidShape(process, eqpId, t1, ts1, c1);
    EsidShape(process, eqpId, t2, ts2, c2);
    hide Esid, Digits;
    var y1, y2 := BeforeDigits(prefix, t1, ts1), BeforeDigits(prefix, t2, ts2);
    var d1, d2 := Digits(Magnitude(ts1)), Digits(Magnitude(ts2));
    DigitsHaveNoHyphen(c1);
    DigitsHaveNoHyphen(c2);
    DigitsHaveNoHyphen(Magnitude(ts1));
    DigitsHaveNoHyphen(Magnitude(ts2));
    if Esid(process, eqpId, t1, ts1, c1) == Esid(process, eqpId, t2, ts2, c2) {
      LastHyphen(y1 + "-" + d1, Digits(c1), y2 + "-" + d2, Digits(c2));
      LastHyphen(y1, d1, y2, d2);
      DigitsInjective(c1, c2);
      DigitsInjective(Magnitude(ts1), Magnitude(ts2));
      TypesFromPrefixes(prefix, t1, ts1, t2, ts2);
    } else if c1 == c2 {
      PrefixesFromTypes(prefix, t1, ts1, t2, ts2);
    }
  }

  lemma {:induction false} TypesFromPrefixes(prefix: string, t1: string, ts1: int, t2: string, ts2: int)
    requires BeforeDigits(prefix, t1, ts1) == BeforeDigits(prefix, t2, ts2)
    requires Magnitude(ts1) == Magnitude(ts2)
    ensures (t1 == t2 && ts1 == ts2) || SignReadsAsHyphen(t1, ts1, t2, ts2) || SignReadsAsHyphen(t2, ts2, t1, ts1)
  {
    var u1, u2 := if ts1 < 0 then t1 + "-" else t1, if ts2 < 0 then t2 + "-" else t2;
    assert BeforeDigits(prefix, t1, ts1) == prefix + u1;
    assert BeforeDigits(prefix, t2, ts2) == prefix + u2;
    assert u1 == (prefix + u1)[|prefix|..];
    assert u2 == (prefix + u2)[|prefix|..];
    if ts1 < 0 && ts2 < 0 {
      assert t1 == u1[..|u1| - 1] && t2 == u2[..|u2| - 1];
    }
  }

  lemma {:induction false} PrefixesFromTypes(prefix: string, t1: string, ts1: int, t2: string, ts2: int)
    requires BeforeDigits(prefix, t1, ts1) != BeforeDigits(prefix, t2, ts2) || Magnitude(ts1) != Magnitude(ts2)
    ensures !(t1 == t2 && ts1 == ts2)
    ensures !SignReadsAsHyphen(t1, ts1, t2, ts2) && !SignReadsAsHyphen(t2, ts2, t1, ts1)
  {
    assert prefix + (t1 + "-") == prefix + t1 + "-";
    assert prefix + (t2 + "-") == prefix + t2 + "-";
  }

  /** For hyphen-free metric types, or for instants from 1970 on, the identifier determines the metric
      type, the millisecond and the counter. */
  lemma {:induction false} EsidInjective(process: string, eqpId: string,
                                         t1: string, ts1: int, c1: nat, t2: string, ts2: int, c2: nat)
    requires ('-' !in t1 && '-' !in t2) || (ts1 >= 0 && ts2 >= 0)
    requires Esid(process, eqpId, t1, ts1, c1) == Esid(process, eqpId, t2, ts2, c2)
    ensures t1 == t2 && ts1 == ts2 && c1 == c2
  {
    EsidEqualIff(process, eqpId, t1, ts1, c1, t2, ts2, c2);
    assert '-' in t1 + "-" by { assert (t1 + "-")[|t1|] == '-'; }
    assert '-' in t2 + "-" by { assert (t2 + "-")[|t2|] == '-'; }
  }

  // ---------- records ----------

  datatype EqpInfo = EqpInfo(process: string, eqpId: string, model: string, line: string)

  datatype RawFormatter = GrokRaw | JsonRaw

  /** What one call prepares records for. `encode` stands for JSON encoding, which may fail. */
  datatype Request = Request(metricType: string, timestamp: Timestamp, eqp: EqpInfo, diff: int,
                             formatter: RawFormatter, encode: ParsedDataList -> Option<string>)
  {
    function EsidAt(i: int): string {
      Esid(eqp.process, eqp.eqpId, metricType, timestamp.unixMilli, i)
    }
  }

  datatype Prepared = NoRows | FormatFailed(row: nat) | Ready(records: seq<KafkaRecord>)

  /** The raw text of a row. */
  function FormatRaw(q: Request, r: EARSRow): Option<string> {
    match q.formatter
    case GrokRaw => Some(GrokText(r))
    case JsonRaw => q.encode(ToParsedData(r, q.eqp.process))
  }

  /** The record a row becomes at position `i`. */
  ghost predicate IsRecordOf(rec: KafkaRecord, row: EARSRow, i: nat, q: Request) {
    && rec.key == q.eqp.eqpId
    && rec.timestamp == q.timestamp
    && rec.value.process == q.eqp.process && rec.value.line == q.eqp.line
    && rec.value.eqpId == q.eqp.eqpId && rec.value.model == q.eqp.model
    && rec.value.diff == q.diff
    && rec.value.esid == q.EsidAt(i)
    && FormatRaw(q, row) == Some(rec.value.raw)
  }

  ghost predicate FirstFailure(q: Request, rows: seq<EARSRow>, k: nat) {
    k < |rows| && FormatRaw(q, rows[k]).None? && forall j :: 0 <= j < k ==> FormatRaw(q, rows[j]).Some?
  }

  ghost predicate RecordsOf(q: Request, rows: seq<EARSRow>, records: seq<KafkaRecord>) {
    |records| == |rows| && forall i :: 0 <= i < |rows| ==> IsRecordOf(records[i], rows[i], i, q)
  }

  method RecordFor(q: Request, row: EARSRow, i: nat) returns (rec: Option<KafkaRecord>)
    ensures rec.None? <==> FormatRaw(q, row).None?
    ensures rec.Some? ==> IsRecordOf(rec.value, row, i, q)
  {
    var raw := FormatRaw(q, row);
    if raw.None? {
      return None;
    }
    var value := KafkaValue(q.eqp.process, q.eqp.line, q.eqp.eqpId, q.eqp.model, q.diff, q.EsidAt(i), raw.value);
    rec := Some(KafkaRecord(q.eqp.eqpId, value, q.timestamp));
  }

  /** `rows` are what the metric converts to. Either every row becomes the record at its position, with
      pairwise distinct identifiers, or the first row that cannot be formatted is reported and nothing
      is produced. With the Grok formatter no row fails, and each raw text reads back as its row when the
      category is plain; with the JSON formatter each raw text is the encoding of a list that carries the
      row, and a row fails exactly when that encoding does. */
  method PrepareRecords(q: Request, rows: seq<EARSRow>) returns (result: Prepared)
    ensures result.NoRows? <==> rows == []
    ensures result.FormatFailed? ==>
              && FirstFailure(q, rows, result.row) && result.row < |rows| && q.formatter.JsonRaw?
              && q.encode(ToParsedData(rows[result.row], q.eqp.process)).None?
              && (forall j :: 0 <= j < result.row ==> q.encode(ToParsedData(rows[j], q.eqp.process)).Some?)
    ensures result.Ready? ==>
              && RecordsOf(q, rows, result.records) && DistinctEsids(result.records)
              && |result.records| == |rows|
              && forall i :: 0 <= i < |rows| ==> RawIsOf(result.records[i].value.raw, rows[i], q)
    ensures result.Ready? ==>
              forall i :: 0 <= i < |rows| ==>
                result.records[i].value.esid == q.eqp.process + ":" + q.eqp.eqpId + "-" + q.metricType
                                                + "-" + Itoa(q.timestamp.unixMilli) + "-" + Itoa(i)
  {
    if |rows| == 0 {
      return NoRows;
    }
    hide PreparedUpTo, FirstFailure, RecordsOf, DistinctEsids;
    var records: seq<KafkaRecord> := [];
    PreparedNone(q, rows);
    for i := 0 to |rows|
      invariant PreparedUpTo(q, rows, i, records)
    {
      var rec := RecordFor(q, rows[i], i);
      if rec.None? {
        FailureFound(q, rows, i, records);
        FailuresAreEncodings(q, rows, i);
        return FormatFailed(i);
      }
      PreparedNext(q, rows, i, records, rec.value);
      records := records + [rec.value];
    }
    PreparedAll(q, rows, records);
    DistinctWithinCall(q, rows, records);
    RawTexts(q, rows, records);
    result := Ready(records);
  }

  /** The raw text of a record is in the format asked for, and is about the row. */
  ghost predicate RawIsOf(raw: string, row: EARSRow, q: Request) {
    match q.formatter
    case GrokRaw => raw == GrokText(row) && (Contains(row.category, ",pid:") || ReadsAs(raw, row))
    case JsonRaw =>
      && q.encode(ToParsedData(row, q.eqp.process)) == Some(raw)
      && CarriesRow(ToParsedData(row, q.eqp.process), row, q.eqp.process)
  }

  lemma RawTexts(q: Request, rows: seq<EARSRow>, records: seq<KafkaRecord>)
    requires RecordsOf(q, rows, records)
    ensures |records| == |rows|
    ensures forall i :: 0 <= i < |rows| ==> RawIsOf(records[i].value.raw, rows[i], q)
    ensures forall i :: 0 <= i < |rows| ==>
              records[i].value.esid == q.eqp.process + ":" + q.eqp.eqpId + "-" + q.metricType
                                       + "-" + Itoa(q.timestamp.unixMilli) + "-" + Itoa(i)
  {
    hide Itoa, ReadsAs, CarriesRow, GrokText, ToParsedData, Contains;
    forall i | 0 <= i < |rows|
      ensures RawIsOf(records[i].value.raw, rows[i], q)
    {
      assert IsRecordOf(records[i], rows[i], i, q);
      ListCarriesRow(rows[i], q.eqp.process);
      if !Contains(rows[i].category, ",pid:") {
        LineReadsAsRow(rows[i]);
      }
    }
  }

  lemma FailuresAreEncodings(q: Request, rows: seq<EARSRow>, k: nat)
    requires FirstFailure(q, rows, k)
    ensures k < |rows| && q.formatter.JsonRaw? && q.encode(ToParsedData(rows[k], q.eqp.process)).None?
    ensures forall j :: 0 <= j < k ==> q.encode(ToParsedData(rows[j], q.eqp.process)).Some?
  {
    hide ToParsedData, GrokText;
    forall j | 0 <= j < k
      ensures q.encode(ToParsedData(rows[j], q.eqp.process)).Some?
    {
      assert FormatRaw(q, rows[j]).Some?;
    }
  }

  /** The first `n` rows have become `records`. */
  ghost predicate PreparedUpTo(q: Request, rows: seq<EARSRow>, n: nat, records: seq<KafkaRecord>) {
    |records| == n <= |rows| && forall i :: 0 <= i < n ==> IsRecordOf(records[i], rows[i], i, q)
  }

  lemma PreparedNone(q: Request, rows: seq<EARSRow>)
    ensures PreparedUpTo(q, rows, 0, [])
  {
  }

  lemma PreparedNext(q: Request, rows: seq<EARSRow>, n: nat, records: seq<KafkaRecord>, rec: KafkaRecord)
    requires PreparedUpTo(q, rows, n, records) && n < |rows| && IsRecordOf(rec, rows[n], n, q)
    ensures PreparedUpTo(q, rows, n + 1, records + [rec])
  {
    hide IsRecordOf;
  }

  lemma PreparedAll(q: Request, rows: seq<EARSRow>, records: seq<KafkaRecord>)
    requires PreparedUpTo(q, rows, |rows|, records)
    ensures RecordsOf(q, rows, records)
  {
    hide IsRecordOf;
  }

  lemma FailureFound(q: Request, rows: seq<EARSRow>, n: nat, records: seq<KafkaRecord>)
    requires PreparedUpTo(q, rows, n, records) && n < |rows| && FormatRaw(q, rows[n]).None?
    ensures FirstFailure(q, rows, n)
  {
    forall j | 0 <= j < n
      ensures FormatRaw(q, rows[j]).Some?
    {
      assert IsRecordOf(records[j], rows[j], j, q);
    }
  }

  ghost predicate DistinctEsids(records: seq<KafkaRecord>) {
    forall i, j :: 0 <= i < j < |records| ==> records[i].value.esid != records[j].value.esid
  }

  /** The three outcomes exclude one another, so the result says which one applies. */
  lemma {:induction false} OutcomesExclusive(q: Request, rows: seq<EARSRow>, records: seq<KafkaRecord>, k: nat, k': nat)
    ensures RecordsOf(q, rows, records) ==> !FirstFailure(q, rows, k)
    ensures FirstFailure(q, rows, k) && FirstFailure(q, rows, k') ==> k == k'
  {
    if RecordsOf(q, rows, records) && k < |rows| {
      assert IsRecordOf(records[k], rows[k], k, q);
    }
  }

  lemma {:induction false} DistinctWithinCall(q: Request, rows: seq<EARSRow>, records: seq<KafkaRecord>)
    requires RecordsOf(q, rows, records)
    ensures DistinctEsids(records)
  {
    hide Esid, FormatRaw;
    forall i, j | 0 <= i < j < |records|
      ensures records[i].value.esid != records[j].value.esid
    {
      assert IsRecordOf(records[i], rows[i], i, q) && IsRecordOf(records[j], rows[j], j, q);
      EsidEqualIff(q.eqp.process, q.eqp.eqpId, q.metricType, q.timestamp.unixMilli, i,
                   q.metricType, q.timestamp.unixMilli, j);
    }
  }

  /** Records of different metric types, or of different milliseconds, never share an identifier. */
  lemma {:induction false} EsidsDifferAcrossCalls(q1: Request, rows1: seq<EARSRow>, recs1: seq<KafkaRecord>, i: nat,
                                                  q2: Request, rows2: seq<EARSRow>, recs2: seq<KafkaRecord>, j: nat)
    requires RecordsOf(q1, rows1, recs1) && i < |recs1| && RecordsOf(q2, rows2, recs2) && j < |recs2|
    requires q1.eqp == q2.eqp && '-' !in q1.metricType && '-' !in q2.metricType
    requires q1.metricType != q2.metricType || q1.timestamp.unixMilli != q2.timestamp.unixMilli
    ensures recs1[i].value.esid != recs2[j].value.esid
  {
    assert IsRecordOf(recs1[i], rows1[i], i, q1) && IsRecordOf(recs2[j], rows2[j], j, q2);
    if recs1[i].value.esid == recs2[j].value.esid {
      EsidInjective(q1.eqp.process, q1.eqp.eqpId, q1.metricType, q1.timestamp.unixMilli, i,
                    q2.metricType, q2.timestamp.unixMilli, j);
    }
  }
}
