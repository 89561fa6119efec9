/**
 What ACT sends while a routine runs (ACT/UdsDiag.c): immediate responses to other requests, and
 one result, which reaches the tester only if the controller is free when it is offered.
 */
module UdsResults {
  import opened Bytes
  import opened Sequences
  import opened SingleFrame
  import opened UdsService
  import opened UdsTransport

  /** One call of the diagnostics task: the request it takes, if any, and what it can report. */
  datatype Turn = Turn(request: Option<seq<byte>>, view: View)

  predicate Proper(t: Turn) { ValidView(t.view) && (t.request.Some? ==> |t.request.value| > 0) }

  function Answered(c: Control, t: Turn): (r: Option<seq<byte>>)
    requires Proper(t)
    ensures r.Some? ==> 1 <= |r.value| <= 11
  {
    if t.request.None? then None else Answer(c, t.request.value, t.view)
  }

  function Responses(answer: Option<seq<byte>>): seq<CanFrame>
    requires answer.Some? ==> 1 <= |answer.value| <= 11
  {
    if answer.Some? then [ResponseFrame(answer.value)] else []
  }

  function ResultFrames(r: Routine): seq<CanFrame> {
    if r == NoRoutine then [] else [ResponseFrame(ResultResponse(r))]
  }

  /** What one call offers to the controller. */
  function CallFrames(c: Control, t: Turn): seq<CanFrame>
    requires Proper(t)
  {
    Responses(Answered(c, t)) + ResultFrames(Call(c, t.request).1)
  }

  function RequestsOf(turns: seq<Turn>): seq<Option<seq<byte>>> {
    seq(|turns|, i requires 0 <= i < |turns| => turns[i].request)
  }

  predicate AllProper(turns: seq<Turn>) { forall i :: 0 <= i < |turns| ==> Proper(turns[i]) }

  /** What a run of calls offers to the controller. */
  function Offers(c: Control, turns: seq<Turn>): seq<CanFrame>
    requires AllProper(turns)
  {
    if turns == [] then []
    else
      var before := turns[..|turns| - 1];
      Offers(c, before) + CallFrames(After(c, RequestsOf(before)), turns[|turns| - 1])
  }

  /** A positive response to RoutineControl. */
  predicate IsResult(f: CanFrame) { |f.data| > 1 && f.data[1] == SID_ROUTINE + 0x40 }

  function Results(frames: seq<CanFrame>): seq<CanFrame> {
    if frames == [] then []
    else
      var last := |frames| - 1;
      Results(frames[..last]) + if IsResult(frames[last]) then [frames[last]] else []
  }

  lemma ResultsStep(frames: seq<CanFrame>, f: CanFrame)
    ensures Results(frames + [f]) == Results(frames) + if IsResult(f) then [f] else []
  {
    assert (frames + [f])[..|frames|] == frames;
  }

  predicate NoResult(frames: seq<CanFrame>) { forall i :: 0 <= i < |frames| ==> !IsResult(frames[i]) }

  /** No immediate response looks like a result. */
  lemma AnswerIsNoResult(c: Control, t: Turn)
    requires Proper(t)
    ensures NoResult(Responses(Answered(c, t)))
  {
    if Answered(c, t).Some? {
      var a := Answered(c, t).value;
      assert a[0] != SID_ROUTINE + 0x40;
      assert ResponseFrame(a).data[1] == a[0];
    }
  }

  lemma ResultIsResult(r: Routine)
    requires r != NoRoutine
    ensures IsResult(ResponseFrame(ResultResponse(r)))
  {
    assert ResponseFrame(ResultResponse(r)).data[1] == ResultResponse(r)[0];
  }

  lemma OffersStep(c: Control, turns: seq<Turn>)
    requires AllProper(turns) && turns != []
    ensures var before, last := turns[..|turns| - 1], turns[|turns| - 1];
            && RequestsOf(turns)[..|turns| - 1] == RequestsOf(before)
            && Offers(c, turns) == Offers(c, before) + Responses(Answered(After(c, RequestsOf(before)), last))
                                   + ResultFrames(LastResult(c, RequestsOf(turns)))
  {
    var before, last := turns[..|turns| - 1], turns[|turns| - 1];
    assert RequestsOf(turns)[..|turns| - 1] == RequestsOf(before);
  }

  /** From the start of a routine to its end one result is offered, at the very end. */
  lemma {:induction false} OneResultIsOffered(c: Control, turns: seq<Turn>, r: Routine) returns (others: seq<CanFrame>)
    requires AllProper(turns) && turns != [] && Starts(c, turns[0].request, r) && |turns| <= Duration(r)
    ensures NoResult(others)
    ensures Offers(c, turns) == others + ResultFrames(if |turns| == Duration(r) then r else NoRoutine)
  {
    hide IsResult, Answered, Responses, After, Call, Starts;
    var n := |turns|;
    var before := turns[..n - 1];
    RoutineRunsThrough(c, RequestsOf(turns), r);
    OffersStep(c, turns);
    others := [];
    if n > 1 {
      others := OneResultIsOffered(c, before, r);
    } else {
      assert Offers(c, before) == [];
    }
    AnswerIsNoResult(After(c, RequestsOf(before)), turns[n - 1]);
    others := others + Responses(Answered(After(c, RequestsOf(before)), turns[n - 1]));
  }

  /** A frame more adds a result on the bus iff it is one and the controller takes it. */
  lemma OneFrameMore(frames: seq<CanFrame>, f: CanFrame, busy: nat -> bool)
    ensures Results(Taken(frames + [f], busy))
            == Results(Taken(frames, busy)) + if IsResult(f) && !busy(|frames|) then [f] else []
  {
    TakenStep(frames, f, busy);
    ResultsStep(Taken(frames, busy), f);
    assert Taken(frames, busy) + [] == Taken(frames, busy);
  }

  /** What is no result adds none on the bus. */
  lemma {:induction false} OthersAddNoResult(earlier: seq<CanFrame>, others: seq<CanFrame>, busy: nat -> bool)
    requires NoResult(others)
    ensures Results(Taken(earlier + others, busy)) == Results(Taken(earlier, busy))
  {
    hide Results, Taken;
    if others == [] {
      assert earlier + others == earlier;
    } else {
      var before, f := others[..|others| - 1], others[|others| - 1];
      OthersAddNoResult(earlier, before, busy);
      OneFrameMore(earlier + before, f, busy);
      assert before + [f] == others;
      Associate(earlier, before, [f]);
    }
  }

  /** The tester's bus carries exactly one result of a routine if the controller is free when the last call
      offers it, and none at all otherwise: nothing offers it again. */
  lemma ResultOnBus(c: Control, turns: seq<Turn>, r: Routine, earlier: seq<CanFrame>, busy: nat -> bool)
    requires AllProper(turns) && turns != [] && Starts(c, turns[0].request, r) && |turns| == Duration(r)
    ensures var offered := earlier + Offers(c, turns);
            && |offered| > |earlier|
            && Results(Taken(offered, busy))
               == Results(Taken(earlier, busy)) + if busy(|offered| - 1) then [] else ResultFrames(r)
  {
    hide Results, Taken, Offers, ResponseFrame;
    var others := OneResultIsOffered(c, turns, r);
    OthersAddNoResult(earlier, others, busy);
    Associate(earlier, others, ResultFrames(r));
    ResultIsResult(r);
    OneFrameMore(earlier + others, ResponseFrame(ResultResponse(r)), busy);
  }
}
