/** The helper's side of the protocol: the request loop of its daemon mode. */
module LhmHelper {

  /** Where serving a request throws: while collecting, while writing the reply (no line is out), while
      flushing it or while logging changed sensor counts (the line is out), or nowhere. */
  datatype TryStage = Collecting | Writing | Flushing | Logging | Served

  /** Where reporting that exception throws in turn, if it does: this one is not caught in the loop. */
  datatype CatchStage = ReportLogging | ReportWriting | ReportFlushing | Reported

  /** What one input line runs into. */
  datatype Request = Request(payload: int, message: string, throwsAt: TryStage, rethrowsAt: CatchStage)

  datatype Reply = Reading(payload: int) | Failure(message: string)

  /** The reply is out before anything throws. */
  predicate ReplyPrinted(q: Request) {
    !q.throwsAt.Collecting? && !q.throwsAt.Writing?
  }

  /** Something throws, and the report of it is printed. */
  predicate FailurePrinted(q: Request) {
    !q.throwsAt.Served? && (q.rethrowsAt.ReportFlushing? || q.rethrowsAt.Reported?)
  }

  /** An exception leaves the loop. */
  predicate EndsLoop(q: Request) {
    !q.throwsAt.Served? && !q.rethrowsAt.Reported?
  }

  function Lines(q: Request): seq<Reply> {
    (if ReplyPrinted(q) then [Reading(q.payload)] else []) + (if FailurePrinted(q) then [Failure(q.message)] else [])
  }

  ghost predicate Ended(qs: seq<Request>) {
    exists i :: 0 <= i < |qs| && EndsLoop(qs[i])
  }

  /** What has been printed after the requests `qs`, those after the end of the loop being unread. */
  ghost function Replies(qs: seq<Request>): seq<Reply> {
    if qs == [] then []
    else
      var before := qs[..|qs| - 1];
      Replies(before) + if Ended(before) then [] else Lines(qs[|qs| - 1])
  }

  /** The body of the loop: what it prints, and whether an exception leaves it. */
  method Serve(q: Request) returns (printed: seq<Reply>, thrown: bool)
    ensures printed == Lines(q) && thrown == EndsLoop(q)
    ensures q.throwsAt.Served? ==> printed == [Reading(q.payload)] && !thrown
    ensures (q.throwsAt.Collecting? || q.throwsAt.Writing?) && q.rethrowsAt.Reported? ==>
              printed == [Failure(q.message)] && !thrown
    ensures (q.throwsAt.Flushing? || q.throwsAt.Logging?) && q.rethrowsAt.Reported? ==>
              printed == [Reading(q.payload), Failure(q.message)] && !thrown
    ensures !q.throwsAt.Served? && !q.rethrowsAt.Reported? ==> thrown
  {
    printed := [];
    if !q.throwsAt.Collecting? && !q.throwsAt.Writing? {
      printed := printed + [Reading(q.payload)];
    }
    if q.throwsAt.Served? {
      return printed, false;
    }
    if q.rethrowsAt.ReportLogging? || q.rethrowsAt.ReportWriting? {
      return printed, true;
    }
    printed := printed + [Failure(q.message)];
    thrown := q.rethrowsAt.ReportFlushing?;
  }

  /** The loop over input lines; `crashed` tells that an exception left it before the input ended. */
  method RunDaemon(qs: seq<Request>) returns (out: seq<Reply>, crashed: bool)
    ensures out == Replies(qs) && crashed == Ended(qs)
  {
    hide Lines, EndsLoop;
    out := [];
    for i := 0 to |qs|
      invariant out == Replies(qs[..i]) && !Ended(qs[..i])
    {
      assert qs[..i + 1][..i] == qs[..i];
      var printed, thrown := Serve(qs[i]);
      out := out + printed;
      if thrown {
        EndedHere(qs, i);
        return out, true;
      }
    }
    assert qs[..|qs|] == qs;
    crashed := false;
  }

  /** Once the loop has ended nothing more is printed. */
  lemma {:induction false} EndedHere(qs: seq<Request>, i: nat)
    requires i < |qs| && EndsLoop(qs[i]) && !Ended(qs[..i])
    ensures Ended(qs) && Replies(qs) == Replies(qs[..i]) + Lines(qs[i])
    decreases |qs|
  {
    var before := qs[..|qs| - 1];
    if i == |qs| - 1 {
    } else {
      assert before[..i] == qs[..i] && before[i] == qs[i];
      EndedHere(before, i);
    }
  }

  /** A helper as the provider's protocol has it: as long as it is running it has printed one line for
      each request, and it may stop with the last one unanswered or answered. */
  ghost predicate InStep(qs: seq<Request>) {
    forall n :: 0 <= n <= |qs| ==> |Replies(qs[..n])| <= n && (!Ended(qs[..n]) ==> |Replies(qs[..n])| == n)
  }

  predicate TwoLines(q: Request) {
    ReplyPrinted(q) && FailurePrinted(q)
  }

  /** The one line printed for a request. */
  predicate Answers(r: Reply, q: Request) {
    Lines(q) == [r]
  }

  lemma OnlyLine(q: Request, r: Reply)
    requires Answers(r, q)
    ensures r == if q.throwsAt.Collecting? || q.throwsAt.Writing? then Failure(q.message) else Reading(q.payload)
  {
    assert Lines(q)[0] == r;
  }

  ghost predicate NoneTwice(qs: seq<Request>) {
    forall i :: 0 <= i < |qs| && !Ended(qs[..i]) ==> !TwoLines(qs[i])
  }

  /** The helper behaves as the provider's protocol has it exactly when, for no request it reads, something
      throws after the reply is out and the report of that gets out too. Then its lines answer the requests
      in order. */
  lemma {:induction false} InStepIff(qs: seq<Request>)
    ensures InStep(qs) <==> NoneTwice(qs)
    ensures InStep(qs) ==>
              && |Replies(qs)| <= |qs|
              && forall i :: 0 <= i < |Replies(qs)| ==>
                   Replies(qs)[i] == if qs[i].throwsAt.Collecting? || qs[i].throwsAt.Writing?
                                     then Failure(qs[i].message) else Reading(qs[i].payload)
  {
    hide InStep, NoneTwice, Replies;
    if InStep(qs) {
      InStepNoneTwice(qs);
    }
    if NoneTwice(qs) {
      NoneTwiceInStep(qs);
      NoneTwiceContents(qs);
    }
  }

  lemma InStepNoneTwice(qs: seq<Request>)
    requires InStep(qs)
    ensures NoneTwice(qs)
  {
    forall i | 0 <= i < |qs| && !Ended(qs[..i])
      ensures !TwoLines(qs[i])
    {
      assert qs[..i + 1][..i] == qs[..i];
      assert |Replies(qs[..i + 1])| <= i + 1 && |Replies(qs[..i])| == i;
    }
  }

  lemma NoneTwiceInStep(qs: seq<Request>)
    requires NoneTwice(qs)
    ensures InStep(qs)
  {
    hide NoneTwice, Replies, Ended;
    forall n | 0 <= n <= |qs|
      ensures |Replies(qs[..n])| <= n && (!Ended(qs[..n]) ==> |Replies(qs[..n])| == n)
    {
      NoneTwiceBefore(qs, n);
      OneLineEach(qs[..n]);
    }
  }

  lemma NoneTwiceContents(qs: seq<Request>)
    requires NoneTwice(qs)
    ensures |Replies(qs)| <= |qs|
    ensures forall i :: 0 <= i < |Replies(qs)| ==>
              Replies(qs)[i] == if qs[i].throwsAt.Collecting? || qs[i].throwsAt.Writing?
                                then Failure(qs[i].message) else Reading(qs[i].payload)
  {
    hide NoneTwice, Replies, Ended, Answers;
    OneLineEach(qs);
    forall i | 0 <= i < |Replies(qs)|
      ensures Replies(qs)[i] == if qs[i].throwsAt.Collecting? || qs[i].throwsAt.Writing?
                                then Failure(qs[i].message) else Reading(qs[i].payload)
    {
      OnlyLine(qs[i], Replies(qs)[i]);
    }
  }

  lemma NoneTwiceBefore(qs: seq<Request>, n: nat)
    requires NoneTwice(qs) && n <= |qs|
    ensures NoneTwice(qs[..n])
  {
    assert forall i :: 0 <= i < n ==> qs[..n][..i] == qs[..i];
  }

  /** The lines `rs` answer the first requests of `qs`, in order. */
  ghost predicate InOrder(rs: seq<Reply>, qs: seq<Request>) {
    |rs| <= |qs| && forall i :: 0 <= i < |rs| ==> Answers(rs[i], qs[i])
  }

  lemma InOrderGrows(rs: seq<Reply>, before: seq<Request>, q: Request)
    requires InOrder(rs, before)
    ensures InOrder(rs, before + [q])
    ensures |rs| == |before| ==> forall r :: Answers(r, q) ==> InOrder(rs + [r], before + [q])
  {
  }

  lemma {:induction false} OneLineEach(qs: seq<Request>)
    requires NoneTwice(qs)
    ensures InOrder(Replies(qs), qs) && (!Ended(qs) ==> |Replies(qs)| == |qs|)
    decreases |qs|
  {
    if qs == [] {
    } else {
      hide *;
      var before, q := qs[..|qs| - 1], qs[|qs| - 1];
      assert qs == before + [q];
      RepliesStep(before, q);
      OneLineEach(before);
      InOrderGrows(Replies(before), before, q);
    }
  }

  lemma RepliesStep(before: seq<Request>, q: Request)
    requires NoneTwice(before + [q])
    ensures NoneTwice(before)
    ensures Ended(before + [q]) <==> Ended(before) || EndsLoop(q)
    ensures Ended(before) ==> Replies(before + [q]) == Replies(before)
    ensures !Ended(before) ==>
              || (EndsLoop(q) && Replies(before + [q]) == Replies(before))
              || exists r :: Answers(r, q) && Replies(before + [q]) == Replies(before) + [r]
  {
    var qs := before + [q];
    assert qs[..|before|] == before;
    NoneTwiceBefore(qs, |before|);
    EndedAfter(before, q);
    if !Ended(before) {
      assert !TwoLines(qs[|before|]);
      LineCount(q);
      if |Lines(q)| == 1 {
        assert Answers(Lines(q)[0], q);
      }
    }
  }

  lemma EndedAfter(before: seq<Request>, q: Request)
    ensures Ended(before + [q]) <==> Ended(before) || EndsLoop(q)
  {
    var qs := before + [q];
    assert qs[|before|] == q;
    assert forall i :: 0 <= i < |before| ==> qs[i] == before[i];
  }

  lemma LineCount(q: Request)
    ensures !TwoLines(q) ==> |Lines(q)| <= 1 && (!EndsLoop(q) ==> |Lines(q)| == 1)
  {
  }
}
