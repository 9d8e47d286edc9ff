/** The file sender: one line per row into a file, and optionally into a bounded console channel that
    another goroutine drains, losing lines when it is full. */
module FileSender {
  import opened Records
  import opened GrokFormat

  const CONSOLE_CAPACITY := 1000

  /** `sub` is `whole` with some elements left out: `at` gives their positions. */
  ghost predicate PickedAt(sub: seq<string>, whole: seq<string>, at: seq<nat>) {
    && |at| == |sub|
    && (forall i :: 0 <= i < |at| ==> at[i] < |whole| && sub[i] == whole[at[i]])
    && (forall i, j :: 0 <= i < j < |at| ==> at[i] < at[j])
  }

  ghost predicate Subsequence(sub: seq<string>, whole: seq<string>) {
    exists at: seq<nat> :: PickedAt(sub, whole, at)
  }

  lemma PickedPrefix(sub: seq<string>, more: seq<string>, whole: seq<string>, at: seq<nat>)
    requires PickedAt(sub + more, whole, at)
    ensures Subsequence(sub, whole)
  {
    assert PickedAt(sub, whole, at[..|sub|]);
  }

  /** A row's line in the sender's format; `encode` stands for JSON encoding, which may fail. */
  function LineOf(json: bool, r: EARSRow, encode: ParsedDataList -> Option<string>): Option<string> {
    if json then encode(ToParsedData(r, "")) else Some(GrokText(r))
  }

  /** A line of the file is in the sender's format, and is about the row. */
  ghost predicate LineIsOf(line: string, json: bool, r: EARSRow, encode: ParsedDataList -> Option<string>) {
    if json then encode(ToParsedData(r, "")) == Some(line) && CarriesRow(ToParsedData(r, ""), r, "")
    else line == GrokText(r) && (Contains(r.category, ",pid:") || ReadsAs(line, r))
  }

  lemma LineOfIsLine(json: bool, r: EARSRow, encode: ParsedDataList -> Option<string>)
    ensures LineOf(json, r, encode).None? <==> json && encode(ToParsedData(r, "")).None?
    ensures LineOf(json, r, encode).Some? ==> LineIsOf(LineOf(json, r, encode).value, json, r, encode)
  {
    hide ReadsAs, CarriesRow, GrokText, ToParsedData, Contains;
    ListCarriesRow(r, "");
    if !Contains(r.category, ",pid:") {
      LineReadsAsRow(r);
    }
  }

  class Sender {
    const json: bool
    const encode: ParsedDataList -> Option<string>
    var console: bool
    var closed: bool
    var file: seq<string>
    var consoleCh: seq<string>
    var out: seq<string>
    ghost var shown: seq<nat>

    /** The lines printed and those waiting are lines of the file, in the file's order. */
    ghost predicate Valid()
      reads this
    {
      && PickedAt(out + consoleCh, file, shown)
      && |consoleCh| <= CONSOLE_CAPACITY
      && (closed ==> consoleCh == [])
    }

    constructor (json: bool, console: bool, encode: ParsedDataList -> Option<string>)
      ensures Valid() && this.json == json && this.encode == encode && this.console == console
      ensures !closed && file == [] && out == []
    {
      this.json, this.encode, this.console := json, encode, console;
      closed := false;
      file, consoleCh, out, shown := [], [], [], [];
    }

    /** Some steps of the draining goroutine, which does not take the mutex. */
    method DrainSome()
      requires Valid()
      modifies this`consoleCh, this`out
      ensures Valid() && out + consoleCh == old(out + consoleCh) && |consoleCh| <= |old(consoleCh)|
    {
      var another: bool := *;
      while another && |consoleCh| > 0
        invariant out + consoleCh == old(out + consoleCh) && |consoleCh| <= |old(consoleCh)|
        invariant closed ==> consoleCh == []
        decreases |consoleCh|
      {
        DrainOne();
        another := *;
      }
    }

    /** The draining goroutine takes a line from the channel and prints it. */
    method DrainOne()
      requires |consoleCh| > 0
      modifies this`consoleCh, this`out
      ensures out + consoleCh == old(out + consoleCh) && consoleCh == old(consoleCh)[1..]
    {
      assert out + consoleCh == (out + [consoleCh[0]]) + consoleCh[1..];
      out := out + [consoleCh[0]];
      consoleCh := consoleCh[1..];
    }

    /** Writes one line to the file, if that succeeds, and offers it to the console. */
    method WriteLine(line: string, ok: bool)
      requires Valid() && !closed
      modifies this`file, this`consoleCh, this`shown
      ensures Valid() && file == if ok then old(file) + [line] else old(file)
      ensures ok && console && |old(consoleCh)| < CONSOLE_CAPACITY ==> consoleCh == old(consoleCh) + [line]
      ensures !(ok && console && |old(consoleCh)| < CONSOLE_CAPACITY) ==> consoleCh == old(consoleCh)
    {
      if !ok {
        return;
      }
      file := file + [line];
      if console && |consoleCh| < CONSOLE_CAPACITY {
        ghost var before := out + consoleCh;
        consoleCh := consoleCh + [line];
        shown := shown + [|file| - 1];
        assert out + consoleCh == before + [line];
      }
    }

    /** What `Send` may do to the printed and waiting lines while it appends `lines` to the file:
        nothing when the console is off, and nothing is lost when the channel has room for all. */
    ghost predicate Shows(before: seq<string>, waiting: nat, lines: seq<string>)
      reads this
    {
      && (!console ==> out + consoleCh == before)
      && (console && waiting + |lines| <= CONSOLE_CAPACITY ==> out + consoleCh == before + lines)
      && |consoleCh| <= waiting + |lines|
    }

    /** One row of `Send`. */
    method SendRow(
      line: string, ok: bool, ghost before: seq<string>, ghost waiting: nat, ghost lines: seq<string>)
      requires Valid() && !closed && Shows(before, waiting, lines)
      modifies this`file, this`consoleCh, this`shown, this`out
      ensures Valid() && file == if ok then old(file) + [line] else old(file)
      ensures Shows(before, waiting, if ok then lines + [line] else lines)
    {
      hide PickedAt;
      DrainSome();
      ghost var printed, queued := out, consoleCh;
      WriteLine(line, ok);
      assert printed + (queued + [line]) == printed + queued + [line];
      assert before + (lines + [line]) == before + lines + [line];
    }

    /** Sends one metric's rows; `writes(i)` says whether the file takes the `i`-th line. The file gains
        the rows' lines in order up to the first failure, and the console shows a selection of them. */
    method Send(rows: seq<EARSRow>, writes: nat -> bool) returns (ok: bool, ghost lines: seq<string>)
      requires Valid()
      modifies this`file, this`consoleCh, this`shown, this`out
      ensures Valid() && file == old(file) + lines && |lines| <= |rows|
      ensures forall i :: 0 <= i < |lines| ==> LineIsOf(lines[i], json, rows[i], encode)
      ensures forall i: nat :: i < |lines| ==> writes(i)
      ensures ok <==> !closed && |lines| == |rows|
      ensures !ok && !closed ==> |lines| < |rows|
      ensures !ok && !closed ==>
                (json && encode(ToParsedData(rows[|lines|], "")).None?) || !writes(|lines|)
      ensures closed ==> lines == [] && out + consoleCh == old(out + consoleCh)
      ensures Shows(old(out + consoleCh), |old(consoleCh)|, lines)
    {
      hide LineOf, LineIsOf, ToParsedData, PickedAt;
      lines := [];
      if closed {
        assert file + [] == file && out + consoleCh + [] == out + consoleCh;
        return false, [];
      }
      ghost var base, before, waiting := file, out + consoleCh, |consoleCh|;
      for i := 0 to |rows|
        invariant |lines| == i && Valid() && !closed && file == base + lines
        invariant forall j :: 0 <= j < |lines| ==> LineIsOf(lines[j], json, rows[j], encode)
        invariant Shows(before, waiting, lines) && forall j: nat :: j < |lines| ==> writes(j)
      {
        var line := LineOf(json, rows[i], encode);
        LineOfIsLine(json, rows[i], encode);
        if line.None? {
          return false, lines;
        }
        SendRow(line.value, writes(i), before, waiting, lines);
        if !writes(i) {
          return false, lines;
        }
        lines := lines + [line.value];
      }
      ok := true;
    }

    method SetConsole(enabled: bool)
      requires Valid()
      modifies this`console
      ensures Valid() && console == enabled
    {
      console := enabled;
    }

    /** Closes the channel and waits until everything in it is printed. */
    method Close()
      requires Valid()
      modifies this`closed, this`consoleCh, this`out
      ensures Valid() && closed && consoleCh == []
      ensures out == old(out + consoleCh)
      ensures Subsequence(out, file)
    {
      if !closed {
        closed := true;
        while |consoleCh| > 0
          invariant closed && out + consoleCh == old(out + consoleCh)
          decreases |consoleCh|
        {
          DrainOne();
        }
      }
      assert out + consoleCh == out && out + [] == out;
      PickedPrefix(out, [], file, shown);
    }

    /** At any moment what the console has shown is an in-order selection of the file's lines. */
    lemma ConsoleShowsFileLines()
      requires Valid()
      ensures Subsequence(out, file)
    {
      PickedPrefix(out, consoleCh, file, shown);
    }
  }
}
