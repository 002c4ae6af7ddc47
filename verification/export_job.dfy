/**
 * The main process's single export slot (`currentFFmpegProcess`): launching
 * stores the engine handle, `end` and `error` empty the slot, and
 * `cancel-export` kills whatever the slot holds; `start` and `progress`
 * are forwarded to the renderer. Engine events are inputs.
 */
module ExportJob {
  import opened Wrappers
  import opened Text
  import Js

  /** Notifications the main process sends to the renderer. */
  datatype Notice = ProcessingStarted | ProcessingProgress(percent: Option<Js.Number>) | ProcessingCancelled

  /** The reply of the `cancel-export` handler. */
  datatype CancelReply = CancelReply(success: bool, message: string)

  /** The slot after a cancel request, the handle signalled with SIGTERM (if any), the notices sent, and the reply. */
  datatype CancelEffect<H> = CancelEffect(slot: Slot<H>, killed: Slot<H>, sent: seq<Notice>, reply: CancelReply)

  /** `currentFFmpegProcess`: empty (`null`) or holding the engine command. */
  datatype Slot<H> = Empty | Holds(handle: H)

  const NothingToCancel: string := "No active export process to cancel"
  const CancelledByUser: string := "Export was cancelled by user"
  const FailurePrefix: string := "FFmpeg processing failed: "

  /** `cancel-export`. */
  function Cancel<H>(slot: Slot<H>): (e: CancelEffect<H>)
    ensures slot.Holds? ==>
      e.killed == slot && e.slot.Empty? && e.sent == [ProcessingCancelled] && e.reply.success
    ensures slot.Empty? ==>
      e.killed.Empty? && e.slot.Empty? && e.sent == [] && e.reply == CancelReply(false, NothingToCancel)
  {
    match slot
    case Holds(h) => CancelEffect(Empty, slot, [ProcessingCancelled], CancelReply(true, "Export cancelled successfully"))
    case Empty => CancelEffect(Empty, Empty, [], CancelReply(false, NothingToCancel))
  }

  /** A second cancel finds nothing to cancel and sends nothing. */
  lemma CancelOnce<H>(slot: Slot<H>)
    ensures var second := Cancel(Cancel(slot).slot);
      second.sent == [] && !second.reply.success && second.killed.Empty?
  {
  }

  /** Whether an engine error message reads as a cancellation. */
  predicate IsCancellation(message: string) {
    Includes(message, "SIGTERM") || Includes(message, "cancelled")
  }

  /** The message `process-video` rejects with when the engine reports an error. */
  function ClassifyError(message: string): (r: string)
    ensures r == CancelledByUser <==> Occurs(message, "SIGTERM") || Occurs(message, "cancelled")
    ensures r != CancelledByUser ==> r == FailurePrefix + message
  {
    if message != "" && IsCancellation(message) then CancelledByUser
    else
      assert (FailurePrefix + message)[0] != CancelledByUser[0];
      FailurePrefix + message
  }

  /** How the `process-video` promise settles. */
  datatype Settlement = Pending | Resolved(outputPath: string) | Rejected(message: string)

  /** Everything that can happen to the slot. */
  datatype Op<H> =
    | Launch(handle: H)
    | CancelRequest
    | EngineStart
    | EngineProgress(percent: Option<Js.Number>)
    | EngineEnd(outputPath: string)
    | EngineError(message: string)

  datatype Step<H> = Step(slot: Slot<H>, sent: seq<Notice>, settled: Settlement)

  /**
   * One operation. Launching overwrites the slot without checking it; the
   * engine's `start` and `progress` are passed on to the renderer and leave
   * the slot alone; its `end` and `error` both empty it.
   */
  function Apply<H>(slot: Slot<H>, op: Op<H>): (s: Step<H>)
    ensures op.Launch? ==> s.slot == Holds(op.handle) && s.sent == [] && s.settled == Pending
    ensures op.EngineStart? ==> s.slot == slot && s.sent == [ProcessingStarted] && s.settled == Pending
    ensures op.EngineProgress? ==> s.slot == slot && s.sent == [ProcessingProgress(op.percent)] && s.settled == Pending
    ensures op.EngineEnd? ==> s.slot.Empty? && s.sent == [] && s.settled == Resolved(op.outputPath)
    ensures op.EngineError? ==> s.slot.Empty? && s.sent == [] && s.settled == Rejected(ClassifyError(op.message))
    ensures op.CancelRequest? ==> s.slot.Empty? && s.sent == Cancel(slot).sent
  {
    match op
    case Launch(h) => Step(Holds(h), [], Pending)
    case CancelRequest => Step(Cancel(slot).slot, Cancel(slot).sent, Pending)
    case EngineStart => Step(slot, [ProcessingStarted], Pending)
    case EngineProgress(p) => Step(slot, [ProcessingProgress(p)], Pending)
    case EngineEnd(p) => Step(Empty, [], Resolved(p))
    case EngineError(m) => Step(Empty, [], Rejected(ClassifyError(m)))
  }

  /** The slot after a sequence of operations and every notice sent along the way. */
  datatype Trace<H> = Trace(slot: Slot<H>, sent: seq<Notice>)

  function Run<H>(slot: Slot<H>, ops: seq<Op<H>>): Trace<H>
    decreases |ops|
  {
    if |ops| == 0 then Trace(slot, [])
    else
      var s := Apply(slot, ops[0]);
      var t := Run(s.slot, ops[1..]);
      Trace(t.slot, s.sent + t.sent)
  }

  function CountNotices(sent: seq<Notice>, n: Notice): nat {
    if |sent| == 0 then 0 else (if sent[0] == n then 1 else 0) + CountNotices(sent[1..], n)
  }

  function CountLaunches<H>(ops: seq<Op<H>>): nat {
    if |ops| == 0 then 0 else (if ops[0].Launch? then 1 else 0) + CountLaunches(ops[1..])
  }

  function CountStarts<H>(ops: seq<Op<H>>): nat {
    if |ops| == 0 then 0 else (if ops[0].EngineStart? then 1 else 0) + CountStarts(ops[1..])
  }

  lemma {:induction false} CountNoticesAppend(a: seq<Notice>, b: seq<Notice>, n: Notice)
    ensures CountNotices(a + b, n) == CountNotices(a, n) + CountNotices(b, n)
  {
    if |a| > 0 {
      assert (a + b)[0] == a[0] && (a + b)[1..] == a[1..] + b;
      CountNoticesAppend(a[1..], b, n);
    } else {
      assert a + b == b;
    }
  }

  /**
   * Cancel-once: over any sequence of operations, the renderer receives at
   * most one `processing-cancelled` per launch (plus one if the slot was
   * already occupied), because a cancel empties the slot it acts on.
   */
  lemma {:induction false} CancelNoticesBounded<H>(slot: Slot<H>, ops: seq<Op<H>>)
    ensures CountNotices(Run(slot, ops).sent, ProcessingCancelled) + (if Run(slot, ops).slot.Holds? then 1 else 0)
            <= CountLaunches(ops) + (if slot.Holds? then 1 else 0)
    decreases |ops|
  {
    if |ops| > 0 {
      var s := Apply(slot, ops[0]);
      CancelNoticesBounded(s.slot, ops[1..]);
      CountNoticesAppend(s.sent, Run(s.slot, ops[1..]).sent, ProcessingCancelled);
      assert Run(slot, ops).sent == s.sent + Run(s.slot, ops[1..]).sent;
    }
  }

  /** Without a launch, no sequence of operations ever sends `processing-cancelled` from an empty slot. */
  lemma NoCancelNoticeWithoutLaunch<H>(ops: seq<Op<H>>)
    requires CountLaunches(ops) == 0
    ensures CountNotices(Run(Empty, ops).sent, ProcessingCancelled) == 0
  {
    CancelNoticesBounded(Empty, ops);
  }

  /** Every engine `start`, and nothing else, sends `processing-started`: the renderer hears of each start exactly once. */
  lemma {:induction false} StartNoticePerStart<H>(slot: Slot<H>, ops: seq<Op<H>>)
    ensures CountNotices(Run(slot, ops).sent, ProcessingStarted) == CountStarts(ops)
    decreases |ops|
  {
    if |ops| > 0 {
      var s := Apply(slot, ops[0]);
      StartNoticePerStart(s.slot, ops[1..]);
      CountNoticesAppend(s.sent, Run(s.slot, ops[1..]).sent, ProcessingStarted);
      assert Run(slot, ops).sent == s.sent + Run(s.slot, ops[1..]).sent;
      assert CountNotices(s.sent, ProcessingStarted) == (if ops[0].EngineStart? then 1 else 0) by {
        if |s.sent| > 0 {
          assert s.sent[1..] == [];
        }
      }
    }
  }
}
