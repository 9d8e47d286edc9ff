/** The values that travel through the agent: Kafka records and the instant a metric was taken. */
module Records {

  datatype Option<+T> = None | Some(value: T)

  /** What the standard library prints for a layout made of digits, hyphens and colons. */
  type ClockText = s: string | forall c :: c in s ==> '0' <= c <= '9' || c == '-' || c == ':' witness ""

  /** The nanoseconds within a second. */
  type Nanos = n: int | 0 <= n < 1_000_000_000

  /** An instant as the formatters see it: `date` and `clock` are the printed year-month-day and
      hour:minute:second. */
  datatype Timestamp = Timestamp(date: ClockText, clock: ClockText, nanosecond: Nanos, unixMilli: int)

  datatype KafkaValue = KafkaValue(
    process: string, line: string, eqpId: string, model: string, diff: int, esid: string, raw: string)

  datatype KafkaRecord = KafkaRecord(key: string, value: KafkaValue, timestamp: Timestamp)

  /** One `Deliver` call's worth of records, with their topic. */
  datatype Entry = Entry(topic: string, records: seq<KafkaRecord>)

  /** The argument of one `sendBatch` call. */
  datatype Batch = Batch(topic: string, records: seq<KafkaRecord>)

  /** The part of the batch configuration that decides behaviour. */
  datatype BatchConfig = BatchConfig(
    flushMessages: int, maxBatchSize: int, maxRetries: int, maxBufferedRecords: int)

  function Min(a: int, b: int): int {
    if a < b then a else b
  }
}
