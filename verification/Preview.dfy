/**
  The camera preview's worker: it takes commands, owns at most one capture, publishes frames and
  acknowledges stops.  Each method is one step between two awaits; senders and the camera may act
  between any two steps.
*/
module Preview {
  import opened Wrappers

  datatype Command = Configure(revision: nat) | Stop(id: nat)

  datatype Frame = Frame(revision: nat, image: Option<string>, error: Option<string>, dimensions: Option<(nat, nat)>)
  {
    predicate Clear() { image == None && dimensions == None }
  }

  function Blank(revision: nat): Frame {
    Frame(revision, None, None, None)
  }

  function Failure(revision: nat, error: string): Frame {
    Frame(revision, None, Some(error), None)
  }

  datatype Stage =
    | Receiving
    | Draining(command: Command)
    | Acting(command: Command)
    | Starting(revision: nat)
    | Capturing(revision: nat)
    | Encoding(revision: nat, dimensions: (nat, nat))
    | Releasing(next: Option<Command>, failed: bool)
    | Finished
  {
    predicate HasCapture() { Capturing? || Encoding? || Releasing? }

    /** The stop the worker has taken and not yet answered. */
    function HeldStops(): seq<nat> {
      if Draining? || Acting? then StopOf(command)
      else if Releasing? && next.Some? then StopOf(next.value)
      else []
    }

    /** What the last command taken must have been. */
    predicate Follows(last: Option<Command>) {
      match this
      case Draining(c) => last == Some(c)
      case Acting(c) => last == Some(c)
      case Starting(r) => last == Some(Configure(r))
      case Capturing(r) => last == Some(Configure(r))
      case Encoding(r, _) => last == Some(Configure(r))
      case Releasing(next, _) => next.Some? ==> last == next
      case _ => true
    }
  }

  function StopOf(command: Command): seq<nat> {
    if command.Stop? then [command.id] else []
  }

  function StopsOf(commands: seq<Command>): seq<nat> {
    if commands == [] then [] else StopOf(commands[0]) + StopsOf(commands[1..])
  }

  lemma {:induction false} StopsAppend(queue: seq<Command>, command: Command)
    ensures StopsOf(queue + [command]) == StopsOf(queue) + StopOf(command)
  {
    if queue == [] {
      assert queue + [command] == [command] && [command][1..] == [] && StopOf(command) + [] == StopOf(command);
    } else {
      var all := queue + [command];
      assert all[1..] == queue[1..] + [command] && all[0] == queue[0];
      assert StopsOf(all) == StopOf(queue[0]) + StopsOf(all[1..]);
      StopsAppend(queue[1..], command);
      hide StopsOf, StopOf;
    }
  }

  /** Stops in order: answered, taken, queued, dropped. */
  function Account(acked: seq<nat>, held: seq<nat>, queued: seq<nat>, dropped: seq<nat>): seq<nat> {
    acked + held + queued + dropped
  }

  lemma AccountMoves(acked: seq<nat>, held: seq<nat>, queued: seq<nat>, more: seq<nat>)
    ensures Account(acked, [], held + queued, []) == Account(acked, held, queued, [])
    ensures Account(acked, held, queued, []) == Account(acked + held, [], queued, [])
    ensures Account(acked, held, queued, []) == Account(acked, [], [], held + queued)
    ensures Account(acked, held, queued + more, []) == Account(acked, held, queued, []) + more
  {
  }

  // ---------------------------------------------------------------- what the world sees

  datatype Event = Taken(command: Command) | Opened | Released | Published(frame: Frame) | Acked(id: nat)

  type Log = seq<Event>

  function Past(log: Log): Log
    requires log != []
  {
    log[..|log| - 1]
  }

  function Captures(log: Log): int {
    if log == [] then 0
    else Captures(Past(log)) + match log[|log| - 1] case Opened => 1 case Released => -1 case _ => 0
  }

  /** The frame on show. */
  function Shown(log: Log): Frame {
    if log == [] then Blank(0)
    else match log[|log| - 1] case Published(frame) => frame case _ => Shown(Past(log))
  }

  function LastTaken(log: Log): Option<Command> {
    if log == [] then None
    else match log[|log| - 1] case Taken(command) => Some(command) case _ => LastTaken(Past(log))
  }

  function Acks(log: Log): seq<nat> {
    if log == [] then []
    else match log[|log| - 1] case Acked(id) => Acks(Past(log)) + [id] case _ => Acks(Past(log))
  }

  /** The event is safe after what came before. */
  ghost predicate SafeAfter(log: Log, e: Event) {
    match e
    case Taken(_) => true
    case Opened => Captures(log) == 0
    case Released => Captures(log) == 1
    case Published(frame) =>
      frame.image.Some? ==> Captures(log) == 1 && LastTaken(log) == Some(Configure(frame.revision))
    case Acked(_) => Captures(log) == 0 && Shown(log).Clear()
  }

  ghost predicate Safe(log: Log) {
    log != [] ==> Safe(Past(log)) && SafeAfter(Past(log), log[|log| - 1])
  }

  lemma OneMore(log: Log, e: Event)
    ensures Past(log + [e]) == log && (log + [e])[|log|] == e
    ensures Captures(log + [e]) == Captures(log) + match e case Opened => 1 case Released => -1 case _ => 0
    ensures Shown(log + [e]) == if e.Published? then e.frame else Shown(log)
    ensures LastTaken(log + [e]) == if e.Taken? then Some(e.command) else LastTaken(log)
    ensures Acks(log + [e]) == if e.Acked? then Acks(log) + [e.id] else Acks(log)
    ensures Safe(log) && SafeAfter(log, e) ==> Safe(log + [e])
  {
    assert Past(log + [e]) == log;
  }

  /** The worker's state against its log.  `sent` lists all stops delivered, `dropped` those never answered. */
  ghost predicate Consistent(stage: Stage, frame: Frame, queue: seq<Command>, sendersGone: bool,
                             log: Log, sent: seq<nat>, dropped: seq<nat>) {
    && Safe(log)
    && frame == Shown(log)
    && Captures(log) == (if stage.HasCapture() then 1 else 0)
    && (!stage.HasCapture() ==> frame.Clear())
    && stage.Follows(LastTaken(log))
    && sent == Account(Acks(log), stage.HeldStops(), StopsOf(queue), dropped)
    && (stage.Releasing? && stage.next.None? && !stage.failed ==> sendersGone)
    && (stage.Releasing? && stage.failed ==> stage.next.None?)
    && (dropped != [] ==> stage.Finished? && sendersGone)
  }

  /** A command passed over for a newer one: a stop is answered all the same. */
  function Answer(command: Command): Log {
    if command.Stop? then [Acked(command.id)] else []
  }

  // ---------------------------------------------------------------- the worker

  class Worker {
    var stage: Stage
    var frame: Frame
    var queue: seq<Command>
    var sendersGone: bool
    ghost var log: Log
    ghost var sent: seq<nat>
    ghost var dropped: seq<nat>

    ghost predicate Valid()
      reads this
    {
      Consistent(stage, frame, queue, sendersGone, log, sent, dropped)
    }

    constructor ()
      ensures Valid() && log == [] && sent == []
    {
      stage, frame, queue, sendersGone := Receiving, Blank(0), [], false;
      log, sent, dropped := [], [], [];
    }

    method Deliver(command: Command)
      requires Valid() && !sendersGone && !stage.Finished?
      modifies this`queue, this`sent
      ensures Valid() && queue == old(queue) + [command] && sent == old(sent) + StopOf(command)
    {
      StopsAppend(queue, command);
      AccountMoves(Acks(log), stage.HeldStops(), StopsOf(queue), StopOf(command));
      queue, sent := queue + [command], sent + StopOf(command);
    }

    method HangUp()
      requires Valid()
      modifies this`sendersGone
      ensures Valid() && sendersGone
    {
      sendersGone := true;
    }

    method Publish(next: Frame)
      modifies this`frame, this`log
      ensures frame == next && log == old(log) + [Published(next)]
    {
      frame, log := next, log + [Published(next)];
    }

    /** Takes the picture off the frame, if there is one. */
    method ClearPreview()
      modifies this`frame, this`log
      ensures frame == old(frame).(image := None, dimensions := None)
      ensures log == if old(frame).Clear() then old(log) else old(log) + [Published(frame)]
    {
      if !frame.Clear() {
        Publish(frame.(image := None, dimensions := None));
      }
    }

    method Acknowledge(id: nat)
      modifies this`log
      ensures log == old(log) + [Acked(id)]
    {
      log := log + [Acked(id)];
    }

    /** The next command, or none once the queue is empty and its senders are gone. */
    method TakeNext() returns (command: Option<Command>)
      requires queue != [] || sendersGone
      modifies this`queue, this`log
      ensures queue == if old(queue) == [] then [] else old(queue)[1..]
      ensures command == if old(queue) == [] then None else Some(old(queue)[0])
      ensures log == if old(queue) == [] then old(log) else old(log) + [Taken(old(queue)[0])]
    {
      if queue == [] {
        return None;
      }
      command, log, queue := Some(queue[0]), log + [Taken(queue[0])], queue[1..];
    }

    /** The worker returns: what it holds and what is queued is dropped with the channel. */
    method Finish()
      requires Safe(log) && frame == Shown(log) && Captures(log) == 0 && sendersGone
      requires dropped == [] && sent == Account(Acks(log), stage.HeldStops(), StopsOf(queue), [])
      modifies this
      ensures Valid() && stage.Finished? && queue == [] && sent == old(sent)
      ensures frame == old(frame).(image := None, dimensions := None) && old(log) <= log
      ensures Acks(log) == Acks(old(log)) && dropped == old(stage).HeldStops() + old(StopsOf(queue))
      ensures sendersGone
    {
      AccountMoves(Acks(log), stage.HeldStops(), StopsOf(queue), []);
      OneMore(log, Published(frame.(image := None, dimensions := None)));
      hide Captures, Shown, LastTaken, Acks, Safe;
      dropped := stage.HeldStops() + StopsOf(queue);
      ClearPreview();
      stage, queue := Finished, [];
    }

    method Receive()
      requires Valid() && stage.Receiving? && (queue != [] || sendersGone)
      modifies this
      ensures Valid() && sent == old(sent)
      ensures stage == if old(queue) == [] then Finished else Draining(old(queue)[0])
    {
      if queue == [] {
        Finish();
        return;
      }
      OneMore(log, Taken(queue[0]));
      AccountMoves(Acks(log), StopOf(queue[0]), StopsOf(queue[1..]), []);
      hide Captures, Shown, LastTaken, Acks, Safe, SafeAfter, StopsOf;
      var next := TakeNext();
      stage := Draining(next.value);
    }

    /** One turn of the loop that keeps only the newest command. */
    method Drain()
      requires Valid() && stage.Draining?
      modifies this
      ensures Valid() && sent == old(sent)
      ensures stage == if old(queue) == [] then Acting(old(stage).command) else Draining(old(queue)[0])
      ensures queue == if old(queue) == [] then [] else old(queue)[1..]
      ensures log == if old(queue) == [] then old(log)
                     else old(log) + [Taken(old(queue)[0])] + Answer(old(stage).command)
    {
      if queue == [] {
        stage := Acting(stage.command);
        return;
      }
      var command := stage.command;
      AccountMoves(Acks(log), StopOf(command), StopsOf(queue), []);
      AccountMoves(Acks(log) + StopOf(command), StopOf(queue[0]), StopsOf(queue[1..]), []);
      assert Acks(log) + [] == Acks(log);
      OneMore(log, Taken(queue[0]));
      OneMore(log + [Taken(queue[0])], Acked(if command.Stop? then command.id else 0));
      hide Captures, Shown, LastTaken, Acks, Safe, StopsOf;
      var newer := TakeNext();
      if command.Stop? {
        Acknowledge(command.id);
      }
      stage := Draining(newer.value);
    }

    method Act()
      requires Valid() && stage.Acting?
      modifies this
      ensures Valid() && sent == old(sent)
      ensures stage == if old(sendersGone) then Finished
                       else match old(stage).command case Stop(_) => Receiving case Configure(r) => Starting(r)
      ensures !old(sendersGone) ==> queue == old(queue)
      ensures !old(sendersGone) ==> log == old(log) + [match old(stage).command
                                                       case Stop(id) => Acked(id)
                                                       case Configure(r) => Published(Blank(r))]
    {
      if sendersGone {
        Finish();
        return;
      }
      AccountMoves(Acks(log), StopOf(stage.command), StopsOf(queue), []);
      match stage.command {
        case Stop(id) =>
          ClearPreview();
          OneMore(log, Acked(id));
          Acknowledge(id);
          stage := Receiving;
        case Configure(revision) =>
          OneMore(log, Published(Blank(revision)));
          Publish(Blank(revision));
          stage := Starting(revision);
      }
    }

    /** The camera either opens or reports why not. */
    method Started(opening: Result<(), string>)
      requires Valid() && stage.Starting?
      modifies this
      ensures Valid() && sent == old(sent)
      ensures stage == if opening.Ok? then Capturing(old(stage).revision) else Receiving
      ensures log == old(log) + match opening
                                case Ok(_) => [Opened]
                                case Err(error) => [Published(Failure(old(stage).revision, error))]
    {
      var revision := stage.revision;
      match opening {
        case Ok(_) =>
          OneMore(log, Opened);
          log := log + [Opened];
          stage := Capturing(revision);
        case Err(error) =>
          OneMore(log, Published(Failure(revision, error)));
          Publish(Failure(revision, error));
          stage := Receiving;
      }
    }

    /** A command, or the end of commands, interrupts the capture before anything else does. */
    method Interrupted()
      requires Valid() && stage.Capturing? && (queue != [] || sendersGone)
      modifies this
      ensures Valid() && sent == old(sent)
      ensures stage == Releasing(if old(queue) == [] then None else Some(old(queue)[0]), false)
    {
      if queue != [] {
        OneMore(log, Taken(queue[0]));
        AccountMoves(Acks(log), StopOf(queue[0]), StopsOf(queue[1..]), []);
      }
      var next := TakeNext();
      stage := Releasing(next, false);
    }

    /** The camera failed, or sent nothing for too long. */
    method CameraFailed(error: string)
      requires Valid() && stage.Capturing? && queue == [] && !sendersGone
      modifies this
      ensures Valid() && sent == old(sent) && stage == Releasing(None, true)
      ensures frame == Failure(old(stage).revision, error) && log == old(log) + [Published(frame)]
    {
      OneMore(log, Published(Failure(stage.revision, error)));
      Publish(Failure(stage.revision, error));
      stage := Releasing(None, true);
    }

    /** A frame came; it is passed over when the last one is too recent. */
    method FrameCame(tooSoon: bool, dimensions: (nat, nat))
      requires Valid() && stage.Capturing? && queue == [] && !sendersGone
      modifies this`stage
      ensures Valid() && stage == if tooSoon then old(stage) else Encoding(old(stage).revision, dimensions)
    {
      if !tooSoon {
        stage := Encoding(stage.revision, dimensions);
      }
    }

    method Encoded(image: Result<string, string>)
      requires Valid() && stage.Encoding?
      modifies this
      ensures Valid() && sent == old(sent) && stage == Capturing(old(stage).revision)
      ensures frame == match image
                       case Ok(data) => Frame(old(stage).revision, Some(data), None, Some(old(stage).dimensions))
                       case Err(error) => Failure(old(stage).revision, error)
      ensures log == old(log) + [Published(frame)]
    {
      var next := match image
        case Ok(data) => Frame(stage.revision, Some(data), None, Some(stage.dimensions))
        case Err(error) => Failure(stage.revision, error);
      OneMore(log, Published(next));
      Publish(next);
      stage := Capturing(stage.revision);
    }

    /** The device is given up before anything else is opened or answered. */
    method Release()
      requires Valid() && stage.Releasing?
      modifies this
      ensures Valid() && sent == old(sent) && Captures(log) == 0
      ensures frame == old(frame).(image := None, dimensions := None) && old(log) + [Released] <= log
      ensures stage == if old(stage).failed then Receiving
                       else match old(stage).next case Some(command) => Draining(command) case None => Finished
    {
      hide Captures, Shown, LastTaken, Acks, Safe, StopsOf;
      var next, failed := stage.next, stage.failed;
      OneMore(log, Released);
      log := log + [Released];
      OneMore(log, Published(frame.(image := None, dimensions := None)));
      ClearPreview();
      if failed {
        stage := Receiving;
      } else if next.Some? {
        stage := Draining(next.value);
      } else {
        Finish();
      }
    }
  }

  // ---------------------------------------------------------------- whole runs

  lemma {:induction false} SafeUpTo(log: Log, k: nat)
    requires Safe(log) && k <= |log|
    ensures Safe(log[..k]) && (k < |log| ==> SafeAfter(log[..k], log[k]))
  {
    if k == |log| {
      assert log[..k] == log;
    } else if k == |log| - 1 {
      assert log[..k] == Past(log);
    } else {
      SafeUpTo(Past(log), k);
      assert Past(log)[..k] == log[..k];
    }
  }

  /** There is never more than one capture. */
  lemma {:induction false} AtMostOneCapture(log: Log)
    requires Safe(log)
    ensures 0 <= Captures(log) <= 1
  {
    if log != [] {
      AtMostOneCapture(Past(log));
    }
  }

  /** Whenever a stop is acknowledged the device is closed and nothing is on show. */
  lemma AcknowledgedWhenReleased(log: Log, k: nat)
    requires Safe(log) && k < |log| && log[k].Acked?
    ensures Captures(log[..k]) == 0 && Shown(log[..k]).Clear()
  {
    SafeUpTo(log, k);
  }

  lemma {:induction false} LastTakenIsThere(log: Log, from: nat)
    requires from < |log| && log[from].Taken?
    ensures exists i :: from <= i < |log| && log[i].Taken? && LastTaken(log) == Some(log[i].command)
  {
    if log[|log| - 1].Taken? {
      assert LastTaken(log) == Some(log[|log| - 1].command);
    } else {
      LastTakenIsThere(Past(log), from);
      var i :| from <= i < |log| - 1 && Past(log)[i].Taken? && LastTaken(Past(log)) == Some(Past(log)[i].command);
      assert log[i].Taken? && LastTaken(log) == Some(log[i].command);
    }
  }

  /** Once another command is taken, no picture of a superseded configuration is shown again. */
  lemma SupersededIsNeverShown(log: Log, revision: nat, newer: nat, k: nat)
    requires Safe(log) && newer < k < |log| && log[newer].Taken?
    requires forall i :: newer <= i < k && log[i].Taken? ==> log[i].command != Configure(revision)
    requires log[k].Published? && log[k].frame.image.Some?
    ensures log[k].frame.revision != revision
  {
    SafeUpTo(log, k);
    var before := log[..k];
    assert before[newer].Taken?;
    LastTakenIsThere(before, newer);
    var i :| newer <= i < |before| && before[i].Taken? && LastTaken(before) == Some(before[i].command);
    assert log[i] == before[i];
  }

  /** Stops are answered at most once and in the order they were sent; only a hang-up leaves some out. */
  lemma StopsInOrder(w: Worker)
    requires w.Valid()
    ensures Acks(w.log) <= w.sent
    ensures w.stage == Receiving && w.queue == [] ==> Acks(w.log) == w.sent
    ensures !w.sendersGone ==> w.sent == Acks(w.log) + w.stage.HeldStops() + StopsOf(w.queue)
  {
  }
}
