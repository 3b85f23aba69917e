// The connection of a test client (`uiConnection`, e2e/cut-0/host-endpoint.e2e.ts): answers are matched to the calls
// that wait for them, first in, first out.
module FrameMatcher {

  // A decoded message, by its `type`; what else the decoder gives is no frame.
  datatype Frame = Frame(kind: string, body: string)
  datatype Decoded = NoFrame | Decoded(frame: Frame)

  // What happens on a connection: something is decoded, or `next()` is called.
  datatype Step = Arrives(decoded: Decoded) | Asks

  // The frames no call took yet, the calls no frame answered yet, what each answered call was resolved with, and how
  // many calls were made.
  datatype State = State(frames: seq<Frame>, waiting: seq<nat>, resolved: map<nat, Frame>, calls: nat)

  const START := State([], [], map[], 0)

  function After(s: State, step: Step): State {
    match step
    case Asks =>
      if |s.frames| > 0
      then s.(frames := s.frames[1..], resolved := s.resolved[s.calls := s.frames[0]], calls := s.calls + 1)
      else s.(waiting := s.waiting + [s.calls], calls := s.calls + 1)
    case Arrives(NoFrame) => s
    case Arrives(Decoded(frame)) =>
      if frame.kind == "evt" then s
      else if s.waiting == [] then s.(frames := s.frames + [frame])
      else s.(waiting := s.waiting[1..], resolved := s.resolved[s.waiting[0] := frame])
  }

  function Run(steps: seq<Step>): State {
    if steps == [] then START else After(Run(steps[..|steps| - 1]), steps[|steps| - 1])
  }

  // The frames of a run that are no events, in the order they arrived.
  function Answers(steps: seq<Step>): seq<Frame> {
    if steps == [] then []
    else
      var before, step := Answers(steps[..|steps| - 1]), steps[|steps| - 1];
      if step.Arrives? && step.decoded.Decoded? && step.decoded.frame.kind != "evt"
      then before + [step.decoded.frame] else before
  }

  function Calls(steps: seq<Step>): nat {
    if steps == [] then 0 else Calls(steps[..|steps| - 1]) + if steps[|steps| - 1].Asks? then 1 else 0
  }

  // The k-th call is resolved with the k-th answer as soon as both are there; answers no call took are queued in order,
  // calls no answer reached wait in order, and there is never one of each.
  ghost predicate Matched(s: State, answers: seq<Frame>, calls: nat) {
    && s.calls == calls
    && (forall k: nat :: k in s.resolved <==> k < calls && k < |answers|)
    && (forall k: nat | k < calls && k < |answers| :: k in s.resolved && s.resolved[k] == answers[k])
    && s.frames == (if calls < |answers| then answers[calls..] else [])
    && s.waiting == Numbers(|answers|, calls)
    && (s.frames == [] || s.waiting == [])
  }

  function Numbers(from: nat, to: nat): seq<nat> {
    if from < to then seq(to - from, i => from + i) else []
  }

  lemma AskKeepsMatched(s: State, answers: seq<Frame>, calls: nat)
    requires Matched(s, answers, calls)
    ensures Matched(After(s, Asks), answers, calls + 1)
  {
    if calls < |answers| {
      assert answers[calls..][1..] == answers[calls + 1..];
    } else {
      assert Numbers(|answers|, calls + 1) == Numbers(|answers|, calls) + [calls];
    }
  }

  lemma AnswerKeepsMatched(s: State, answers: seq<Frame>, calls: nat, frame: Frame)
    requires Matched(s, answers, calls)
    requires frame.kind != "evt"
    ensures Matched(After(s, Arrives(Decoded(frame))), answers + [frame], calls)
  {
    var n := |answers|;
    if calls <= n {
      assert (answers + [frame])[calls..] == answers[calls..] + [frame];
    } else {
      assert s.waiting[0] == n;
      assert Numbers(n, calls)[1..] == Numbers(n + 1, calls);
    }
  }

  // So it is after every interleaving of arriving frames and calls.
  lemma {:induction false} AnswersMatchCalls(steps: seq<Step>)
    ensures Matched(Run(steps), Answers(steps), Calls(steps))
  {
    if steps != [] {
      var init, step := steps[..|steps| - 1], steps[|steps| - 1];
      AnswersMatchCalls(init);
      if step.Asks? {
        AskKeepsMatched(Run(init), Answers(init), Calls(init));
      } else if step.decoded.Decoded? && step.decoded.frame.kind != "evt" {
        AnswerKeepsMatched(Run(init), Answers(init), Calls(init), step.decoded.frame);
      }
    }
  }

  class UiConnection {
    var frames: seq<Frame>
    // The calls that wait, each named by its number.
    var waiting: seq<nat>
    var resolved: map<nat, Frame>
    var calls: nat
    // `decoder.helloOk()` was called.
    var greeted: bool

    function Snapshot(): State
      reads this
    {
      State(frames, waiting, resolved, calls)
    }

    constructor ()
      ensures Snapshot() == START && !greeted
    {
      frames, waiting, resolved, calls, greeted := [], [], map[], 0, false;
    }

    // One turn of the data listener's loop.
    method OnDecoded(next: Decoded)
      modifies this
      ensures Snapshot() == After(old(Snapshot()), Arrives(next))
      ensures greeted == (old(greeted) || (next.Decoded? && next.frame.kind == "hello.ok"))
    {
      if next.NoFrame? {
        return;
      }
      var frame := next.frame;
      if frame.kind == "hello.ok" {
        greeted := true;
      }
      if frame.kind == "evt" {
        return;
      }
      if |waiting| == 0 {
        frames := frames + [frame];
      } else {
        var call := waiting[0];
        waiting := waiting[1..];
        resolved := resolved[call := frame];
      }
    }

    // `next()`: the number of the call, which says what it is resolved with, now or later.
    method Next() returns (call: nat)
      modifies this
      ensures Snapshot() == After(old(Snapshot()), Asks)
      ensures call == old(calls) && greeted == old(greeted)
    {
      call := calls;
      calls := calls + 1;
      if |frames| > 0 {
        resolved := resolved[call := frames[0]];
        frames := frames[1..];
      } else {
        waiting := waiting + [call];
      }
    }
  }
}
