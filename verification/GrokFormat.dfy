/** One metric row in its two wire formats: the Grok text line and the parsed-data list. */
module GrokFormat {
  import opened Records
  import opened Decimal
  import Sanitize

  /** `value` is the formatted number; formatting a float is outside this model. */
  datatype EARSRow = EARSRow(
    timestamp: Timestamp, category: string, pid: int, procName: string, metric: string, value: string)

  // ---------- timestamps ----------

  /** Zero-padded milliseconds, digit by digit. */
  function Millis(nanosecond: Nanos): string {
    var ms := nanosecond / 1_000_000;
    [DigitChar(ms / 100), DigitChar((ms / 10) % 10), DigitChar(ms % 10)]
  }

  function GrokTimestamp(t: Timestamp): string {
    t.date + " " + t.clock + "," + Millis(t.nanosecond)
  }

  function JSONTimestamp(t: Timestamp): string {
    t.date + "T" + t.clock + "." + Millis(t.nanosecond)
  }

  method WriteMillis(b: string, nanosecond: Nanos) returns (b': string)
    ensures b' == b + Millis(nanosecond)
  {
    var ms := nanosecond / 1_000_000;
    b' := b + ['0' + (ms / 100) as char];
    b' := b' + ['0' + ((ms / 10) % 10) as char];
    b' := b' + ['0' + (ms % 10) as char];
  }

  method FormatGrokTimestamp(t: Timestamp) returns (b: string)
    ensures b == GrokTimestamp(t) && Separated(b, t, ' ', ',')
  {
    TimestampParts(t);
    b := t.date + " " + t.clock;
    b := b + ",";
    b := WriteMillis(b, t.nanosecond);
  }

  method FormatJSONTimestamp(t: Timestamp) returns (b: string)
    ensures b == JSONTimestamp(t) && Separated(b, t, 'T', '.')
  {
    TimestampParts(t);
    b := t.date + "T" + t.clock;
    b := b + ".";
    b := WriteMillis(b, t.nanosecond);
  }

  /** The milliseconds written are three digits that read back as the instant's milliseconds. */
  lemma {:induction false} MillisRoundTrip(nanosecond: Nanos)
    ensures |Millis(nanosecond)| == 3 && AllDigits(Millis(nanosecond))
    ensures Value(Millis(nanosecond)) == nanosecond / 1_000_000
  {
    var ms := nanosecond / 1_000_000;
    var m := Millis(nanosecond);
    assert m[..2][..1][..0] == "";
    assert m[..2][..1] == [m[0]];
    assert Value([m[0]]) == ms / 100 by { assert [m[0]][..0] == ""; }
    assert Value(m[..2]) == 10 * (ms / 100) + (ms / 10) % 10;
    assert ms / 10 == 10 * (ms / 100) + (ms / 10) % 10;
  }

  /** Each timestamp is the date, the clock and the three digits of the milliseconds, between two separators
      of its own: blank and comma in the Grok line, `T` and point in JSON. */
  ghost predicate Separated(text: string, t: Timestamp, first: char, second: char) {
    var i, j := |t.date|, |t.date| + 1 + |t.clock|;
    && |text| == j + 4 && text[i] == first && text[j] == second
    && text[..i] == t.date && text[i + 1..j] == t.clock
    && AllDigits(text[j + 1..]) && Value(text[j + 1..]) == t.nanosecond / 1_000_000
  }

  lemma {:induction false} TimestampParts(t: Timestamp)
    ensures Separated(GrokTimestamp(t), t, ' ', ',')
    ensures Separated(JSONTimestamp(t), t, 'T', '.')
  {
    MillisRoundTrip(t.nanosecond);
    hide Millis, Value, AllDigits;
    var j := |t.date| + 1 + |t.clock|;
    assert GrokTimestamp(t)[j + 1..] == Millis(t.nanosecond) == JSONTimestamp(t)[j + 1..];
  }

  /** The two timestamps agree everywhere but at their two separator characters. */
  lemma {:induction false} TimestampsAgree(t: Timestamp, i: nat)
    requires i < |GrokTimestamp(t)|
    ensures |JSONTimestamp(t)| == |GrokTimestamp(t)|
    ensures GrokTimestamp(t)[i] == JSONTimestamp(t)[i]
            <==> i != |t.date| && i != |t.date| + 1 + |t.clock|
  {
    var g, j := t.date + " " + t.clock, t.date + "T" + t.clock;
    assert |g| == |j| == |t.date| + 1 + |t.clock|;
    assert GrokTimestamp(t) == g + "," + Millis(t.nanosecond);
    assert JSONTimestamp(t) == j + "." + Millis(t.nanosecond);
  }

  // ---------- the Grok line ----------

  /** The line after "pid:", after "proc:" and after "metric:". */
  function AfterMetric(r: EARSRow): string {
    Sanitize.SanitizeName(r.metric) + ",value:" + r.value
  }

  function AfterProc(r: EARSRow): string {
    Sanitize.SanitizeName(r.procName) + ",metric:" + AfterMetric(r)
  }

  function AfterPid(r: EARSRow): string {
    Itoa(r.pid) + ",proc:" + AfterProc(r)
  }

  function GrokText(r: EARSRow): string {
    GrokTimestamp(r.timestamp) + " category:" + (r.category + ",pid:" + AfterPid(r))
  }

  method ToGrokString(r: EARSRow) returns (b: string)
    ensures b == GrokText(r)
    ensures b == GrokTimestamp(r.timestamp) + " category:" + r.category + ",pid:" + Itoa(r.pid)
                 + ",proc:" + Sanitize.SanitizeName(r.procName) + ",metric:" + Sanitize.SanitizeName(r.metric)
                 + ",value:" + r.value
    ensures !Contains(r.category, ",pid:") ==> ReadsAs(b, r)
  {
    if !Contains(r.category, ",pid:") {
      LineReadsAsRow(r);
    }
    hide Contains, ReadsAs, Itoa;
    b := FormatGrokTimestamp(r.timestamp);
    b := b + " category:";
    ghost var b1 := b;
    b := b + r.category;
    b := b + ",pid:";
    ghost var b2 := b;
    b := b + Itoa(r.pid);
    b := b + ",proc:";
    ghost var b3 := b;
    b := b + Sanitize.SanitizeName(r.procName);
    b := b + ",metric:";
    ghost var b4 := b;
    b := b + Sanitize.SanitizeName(r.metric);
    b := b + ",value:";
    b := b + r.value;
    Regroup(b4, Sanitize.SanitizeName(r.metric), ",value:", r.value);
    Regroup(b3, Sanitize.SanitizeName(r.procName), ",metric:", AfterMetric(r));
    Regroup(b2, Itoa(r.pid), ",proc:", AfterProc(r));
    Regroup(b1, r.category, ",pid:", AfterPid(r));
  }

  lemma Regroup(a: string, b: string, c: string, d: string)
    ensures a + b + c + d == a + (b + c + d)
  {
  }

  // ---------- the parsed-data list ----------

  datatype ParsedData = ParsedData(field: string, value: string, dataFormat: string)

  datatype ParsedDataList = ParsedDataList(isoTimestamp: string, parsed: seq<ParsedData>)

  function ToParsedData(r: EARSRow, process: string): ParsedDataList {
    ParsedDataList(JSONTimestamp(r.timestamp), [
      ParsedData("EARS_PROCESS", process, "String"),
      ParsedData("EARS_CATEGORY", r.category, "String"),
      ParsedData("EARS_PID", Itoa(r.pid), "Integer"),
      ParsedData("EARS_PROCNAME", Sanitize.SanitizeName(r.procName), "String"),
      ParsedData("EARS_METRIC", Sanitize.SanitizeName(r.metric), "String"),
      ParsedData("EARS_VALUE", r.value, "Double")])
  }

  /** The entry of a field: its value and its format. */
  function FieldOf(l: ParsedDataList, field: string): Option<(string, string)> {
    FieldIn(l.parsed, field)
  }

  function FieldIn(ps: seq<ParsedData>, field: string): Option<(string, string)> {
    if ps == [] then None
    else if ps[0].field == field then Some((ps[0].value, ps[0].dataFormat))
    else FieldIn(ps[1..], field)
  }

  // ---------- reading a line back ----------

  ghost predicate OccursAt(s: string, sep: string, i: nat) {
    i + |sep| <= |s| && s[i..i + |sep|] == sep
  }

  ghost predicate Contains(s: string, sep: string) {
    exists i: nat :: OccursAt(s, sep, i)
  }

  /** Splits at the first occurrence of `sep`. */
  function SplitAt(s: string, sep: string): Option<(string, string)> {
    if |s| < |sep| then None
    else if s[..|sep|] == sep then Some(("", s[|sep|..]))
    else
      match SplitAt(s[1..], sep)
      case None => None
      case Some(p) => Some(([s[0]] + p.0, p.1))
  }

  datatype Fields = Fields(
    timestamp: string, category: string, pid: string, proc: string, metric: string, value: string)

  /** A consumer that knows only the fixed separators. */
  function Parse(line: string): Option<Fields> {
    match SplitAt(line, " category:")
    case None => None
    case Some(a) =>
      match SplitAt(a.1, ",pid:")
      case None => None
      case Some(b) =>
        match SplitAt(b.1, ",proc:")
        case None => None
        case Some(c) =>
          match SplitAt(c.1, ",metric:")
          case None => None
          case Some(d) =>
            match SplitAt(d.1, ",value:")
            case None => None
            case Some(e) => Some(Fields(a.0, b.0, c.0, d.0, e.0, e.1))
  }

  lemma {:induction false} SplitAtFirst(a: string, sep: string, b: string)
    requires forall i: nat :: i < |a| ==> !OccursAt(a + sep + b, sep, i)
    ensures SplitAt(a + sep + b, sep) == Some((a, b))
  {
    var s := a + sep + b;
    if a == "" {
      assert s == sep + b;
    } else {
      assert !OccursAt(s, sep, 0);
      assert s[1..] == a[1..] + sep + b;
      forall i: nat | i < |a[1..]|
        ensures !OccursAt(a[1..] + sep + b, sep, i)
      {
        assert !OccursAt(s, sep, i + 1);
        if i + |sep| <= |s[1..]| {
          assert s[1..][i..i + |sep|] == s[i + 1..i + 1 + |sep|];
        }
      }
      SplitAtFirst(a[1..], sep, b);
      assert [s[0]] + a[1..] == a;
    }
  }

  /** Splitting never leaves a separator in front. */
  lemma {:induction false} SplitAtFront(s: string, sep: string, i: nat)
    requires SplitAt(s, sep).Some? && sep != ""
    ensures !OccursAt(SplitAt(s, sep).value.0, sep, i)
  {
    if s[..|sep|] != sep {
      var p := SplitAt(s[1..], sep).value;
      var front := [s[0]] + p.0;
      if i == 0 {
        SplitAtRejoins(s, sep);
        assert |sep| <= |front| ==> s[..|sep|] == front[..|sep|];
      } else {
        SplitAtFront(s[1..], sep, i - 1);
        assert i + |sep| <= |front| ==> front[i..i + |sep|] == p.0[i - 1..i - 1 + |sep|];
      }
    }
  }

  lemma {:induction false} SplitAtRejoins(s: string, sep: string)
    requires SplitAt(s, sep).Some?
    ensures s == SplitAt(s, sep).value.0 + sep + SplitAt(s, sep).value.1
  {
    if s[..|sep|] == sep {
    } else {
      SplitAtRejoins(s[1..], sep);
    }
  }

  /** One differing character rules an occurrence out. */
  lemma Mismatch(s: string, sep: string, i: nat, k: nat)
    requires k < |sep| && i + k < |s| && s[i + k] != sep[k]
    ensures !OccursAt(s, sep, i)
  {
    assert i + |sep| <= |s| ==> s[i..i + |sep|][k] == s[i + k];
  }

  /** A separator whose first character occurs in it only once is found early only if the text in
      front of it already contains it. */
  lemma {:induction false} NotInsideNotEarly(a: string, sep: string, b: string, i: nat)
    requires sep != "" && (forall k :: 1 <= k < |sep| ==> sep[k] != sep[0])
    requires i < |a| && !OccursAt(a, sep, i)
    ensures !OccursAt(a + sep + b, sep, i)
  {
    var s := a + sep + b;
    if i + |sep| <= |a| {
      assert a[i..i + |sep|] == s[i..i + |sep|];
    } else {
      assert s[|a|] == sep[0];
      Mismatch(s, sep, i, |a| - i);
    }
  }

  lemma {:induction false} SplitAtComma(a: string, sep: string, b: string)
    requires sep != "" && sep[0] == ','
    requires forall c :: c in a ==> c != ','
    ensures SplitAt(a + sep + b, sep) == Some((a, b))
  {
    var s := a + sep + b;
    forall i: nat | i < |a|
      ensures !OccursAt(s, sep, i)
    {
      assert s[i] == a[i];
      assert a[i] in a;
      Mismatch(s, sep, i, 0);
    }
    SplitAtFirst(a, sep, b);
  }

  lemma {:induction false} SplitTimestamp(t: Timestamp, b: string)
    ensures SplitAt(GrokTimestamp(t) + " category:" + b, " category:") == Some((GrokTimestamp(t), b))
  {
    var a, sep := GrokTimestamp(t), " category:";
    var s := a + sep + b;
    assert |a| > |t.date| + 1;
    forall i: nat | i < |a|
      ensures !OccursAt(s, sep, i)
    {
      if a[i] != ' ' {
        assert s[i] == a[i];
        Mismatch(s, sep, i, 0);
      } else {
        OnlySpace(t, i);
        NoLetterC(t, i + 1);
        assert s[i + 1] == a[i + 1];
        Mismatch(s, sep, i, 1);
      }
    }
    SplitAtFirst(a, sep, b);
  }

  lemma OnlySpace(t: Timestamp, i: nat)
    requires i < |GrokTimestamp(t)| && GrokTimestamp(t)[i] == ' '
    ensures i == |t.date|
  {
    MillisRoundTrip(t.nanosecond);
    var tail := t.clock + "," + Millis(t.nanosecond);
    assert GrokTimestamp(t) == t.date + " " + tail;
    assert forall k :: 0 <= k < |t.date| ==> t.date[k] in t.date;
    assert forall k :: 0 <= k < |t.clock| ==> t.clock[k] in t.clock;
    assert forall k :: 0 <= k < |tail| ==> tail[k] != ' ';
  }

  lemma NoLetterC(t: Timestamp, i: nat)
    requires i < |GrokTimestamp(t)|
    ensures GrokTimestamp(t)[i] != 'c'
  {
    MillisRoundTrip(t.nanosecond);
    assert GrokTimestamp(t)[i] in t.date + " " + t.clock + "," + Millis(t.nanosecond);
  }

  // ---------- printer and parser are inverse ----------

  function FieldsOf(r: EARSRow): Fields {
    Fields(GrokTimestamp(r.timestamp), r.category, Itoa(r.pid),
           Sanitize.SanitizeName(r.procName), Sanitize.SanitizeName(r.metric), r.value)
  }

  lemma {:induction false} TailParses(r: EARSRow)
    ensures SplitAt(AfterPid(r), ",proc:") == Some((Itoa(r.pid), AfterProc(r)))
    ensures SplitAt(AfterProc(r), ",metric:") == Some((Sanitize.SanitizeName(r.procName), AfterMetric(r)))
    ensures SplitAt(AfterMetric(r), ",value:") == Some((Sanitize.SanitizeName(r.metric), r.value))
  {
    ItoaRoundTrip(r.pid);
    Sanitize.SanitizeCleans(r.procName);
    Sanitize.SanitizeCleans(r.metric);
    hide SplitAt, Itoa, Sanitize.SanitizeName;
    SplitAtComma(Itoa(r.pid), ",proc:", AfterProc(r));
    SplitAtComma(Sanitize.SanitizeName(r.procName), ",metric:", AfterMetric(r));
    SplitAtComma(Sanitize.SanitizeName(r.metric), ",value:", r.value);
  }

  lemma {:induction false} ParseAfterTimestamp(r: EARSRow)
    requires SplitAt(r.category + ",pid:" + AfterPid(r), ",pid:") == Some((r.category, AfterPid(r)))
    ensures Parse(GrokText(r)) == Some(FieldsOf(r))
  {
    hide SplitAt, GrokTimestamp, Itoa, Sanitize.SanitizeName, AfterPid, AfterProc, AfterMetric;
    SplitTimestamp(r.timestamp, r.category + ",pid:" + AfterPid(r));
    TailParses(r);
  }

  /** Splitting a printed row at the fixed separators recovers its fields, exactly when the category
      (the one text field that is not sanitized) does not itself contain the separator after it. */
  lemma {:induction false} PrintParse(r: EARSRow)
    ensures Parse(GrokText(r)) == Some(FieldsOf(r)) <==> !Contains(r.category, ",pid:")
  {
    hide AfterPid, SplitAt;
    var rest := r.category + ",pid:" + AfterPid(r);
    if !Contains(r.category, ",pid:") {
      forall i: nat | i < |r.category|
        ensures !OccursAt(rest, ",pid:", i)
      {
        assert !OccursAt(r.category, ",pid:", i);
        NotInsideNotEarly(r.category, ",pid:", AfterPid(r), i);
      }
      SplitAtFirst(r.category, ",pid:", AfterPid(r));
      ParseAfterTimestamp(r);
    } else {
      SplitTimestamp(r.timestamp, rest);
      var i: nat :| OccursAt(r.category, ",pid:", i);
      if SplitAt(rest, ",pid:").Some? {
        SplitAtFront(rest, ",pid:", i);
      }
    }
  }

  /** The categories the row converters use. */
  const CATEGORIES := ["cpu", "memory", "disk", "network", "temperature", "gpu", "fan", "voltage",
                       "motherboard_temp", "storage_smart", "storage_health", "process_watch", "uptime", "agent"]

  /** A Grok consumer reads the row off the line. */
  ghost predicate ReadsAs(line: string, r: EARSRow) {
    match Parse(line)
    case None => false
    case Some(f) =>
      && Separated(f.timestamp, r.timestamp, ' ', ',')
      && f.category == r.category
      && Atoi(f.pid) == r.pid
      && f.proc == Sanitize.SanitizeName(r.procName)
      && f.metric == Sanitize.SanitizeName(r.metric)
      && f.value == r.value
  }

  lemma {:induction false} LineReadsAsRow(r: EARSRow)
    requires !Contains(r.category, ",pid:")
    ensures ReadsAs(GrokText(r), r)
  {
    PrintParse(r);
    ItoaRoundTrip(r.pid);
    TimestampParts(r.timestamp);
    hide Parse, Itoa, GrokTimestamp, Separated, GrokText;
  }

  /** The list carries the row: these six fields, each in its format, and the timestamp. */
  ghost predicate CarriesRow(l: ParsedDataList, r: EARSRow, process: string) {
    && |l.parsed| == 6
    && Separated(l.isoTimestamp, r.timestamp, 'T', '.')
    && FieldOf(l, "EARS_PROCESS") == Some((process, "String"))
    && FieldOf(l, "EARS_CATEGORY") == Some((r.category, "String"))
    && (FieldOf(l, "EARS_PID").Some? && Atoi(FieldOf(l, "EARS_PID").value.0) == r.pid
        && FieldOf(l, "EARS_PID").value.1 == "Integer")
    && FieldOf(l, "EARS_PROCNAME") == Some((Sanitize.SanitizeName(r.procName), "String"))
    && FieldOf(l, "EARS_METRIC") == Some((Sanitize.SanitizeName(r.metric), "String"))
    && FieldOf(l, "EARS_VALUE") == Some((r.value, "Double"))
  }

  lemma {:induction false} ListCarriesRow(r: EARSRow, process: string)
    ensures CarriesRow(ToParsedData(r, process), r, process)
  {
    FieldsFound(r, process);
    ItoaRoundTrip(r.pid);
    TimestampParts(r.timestamp);
    hide FieldOf, Itoa, Atoi, Sanitize.SanitizeName, Separated;
  }

  /** What a Grok consumer reads off the line and what the parsed-data list carries agree, field by
      field, and both give back the row's PID. */
  lemma {:induction false} FormatsAgree(r: EARSRow, process: string)
    requires !Contains(r.category, ",pid:")
    ensures Parse(GrokText(r)).Some?
    ensures var f, l := Parse(GrokText(r)).value, ToParsedData(r, process);
            && FieldOf(l, "EARS_PROCESS") == Some((process, "String"))
            && FieldOf(l, "EARS_CATEGORY") == Some((f.category, "String"))
            && FieldOf(l, "EARS_PID") == Some((f.pid, "Integer")) && Atoi(f.pid) == r.pid
            && FieldOf(l, "EARS_PROCNAME") == Some((f.proc, "String"))
            && FieldOf(l, "EARS_METRIC") == Some((f.metric, "String"))
            && FieldOf(l, "EARS_VALUE") == Some((f.value, "Double")) && f.value == r.value
            && |l.isoTimestamp| == |f.timestamp|
            && (forall i :: 0 <= i < |f.timestamp| ==>
                  (f.timestamp[i] == l.isoTimestamp[i]
                   <==> i != |r.timestamp.date| && i != |r.timestamp.date| + 1 + |r.timestamp.clock|))
  {
    PrintParse(r);
    ItoaRoundTrip(r.pid);
    var l := ToParsedData(r, process);
    TimestampsAgree(r.timestamp, 0);
    forall i | 0 <= i < |GrokTimestamp(r.timestamp)|
      ensures GrokTimestamp(r.timestamp)[i] == l.isoTimestamp[i]
              <==> i != |r.timestamp.date| && i != |r.timestamp.date| + 1 + |r.timestamp.clock|
    {
      TimestampsAgree(r.timestamp, i);
    }
    FieldsFound(r, process);
  }

  lemma {:induction false} FieldsFound(r: EARSRow, process: string)
    ensures var l := ToParsedData(r, process);
            && FieldOf(l, "EARS_PROCESS") == Some((process, "String"))
            && FieldOf(l, "EARS_CATEGORY") == Some((r.category, "String"))
            && FieldOf(l, "EARS_PID") == Some((Itoa(r.pid), "Integer"))
            && FieldOf(l, "EARS_PROCNAME") == Some((Sanitize.SanitizeName(r.procName), "String"))
            && FieldOf(l, "EARS_METRIC") == Some((Sanitize.SanitizeName(r.metric), "String"))
            && FieldOf(l, "EARS_VALUE") == Some((r.value, "Double"))
  {
    hide Itoa, Sanitize.SanitizeName, JSONTimestamp;
    var ps := ToParsedData(r, process).parsed;
    assert "EARS_CATEGORY"[5] != "EARS_PROCNAME"[5];
    FieldAt(ps, 0);
    FieldAt(ps, 1);
    FieldAt(ps, 2);
    FieldAt(ps, 3);
    FieldAt(ps, 4);
    FieldAt(ps, 5);
  }

  /** With distinct field names, each entry is found under its own name. */
  lemma {:induction false} FieldAt(ps: seq<ParsedData>, i: nat)
    requires i < |ps| && (forall j :: 0 <= j < i ==> ps[j].field != ps[i].field)
    ensures FieldIn(ps, ps[i].field) == Some((ps[i].value, ps[i].dataFormat))
  {
    if i == 0 {
    } else {
      assert forall j :: 0 <= j < |ps[1..]| ==> ps[1..][j] == ps[j + 1];
      FieldAt(ps[1..], i - 1);
    }
  }

  lemma CategoriesArePlain(i: nat)
    requires i < |CATEGORIES|
    ensures !Contains(CATEGORIES[i], ",pid:")
  {
    forall k: nat | k < |CATEGORIES[i]|
      ensures !OccursAt(CATEGORIES[i], ",pid:", k)
    {
      Mismatch(CATEGORIES[i], ",pid:", k, 0);
    }
  }
}
