/**
  The Android installer.  The user-interface thread runs one method at a time; background work and
  broadcasts come back as calls that carry the generation they were started in.
*/
module Updater {
  import opened Wrappers

  datatype Status = Idle | Checking | Permission | Installing | Installed | Cancelled | Failed

  /** How far the system lets an installation get. */
  datatype Start = InCall | RegistrationFails | SessionFails | IntentFails | Started

  datatype Report = Confirm(shown: bool) | Success | Aborted | Storage | Incompatible | Other(code: string)

  const IN_CALL := "Finish your call before installing. The download is ready."

  function Outcome(report: Report): Status {
    match report case Success => Installed case Aborted => Cancelled case _ => Failed
  }

  function Told(report: Report): string {
    match report
    case Storage => "Not enough free space to install the update."
    case Incompatible => "This update is not compatible with this device."
    case Other(code) => "Android could not install the update (" + code + ")."
    case _ => ""
  }

  /** Success installs, a refusal by the user cancels, and anything else fails with a message. */
  lemma ReportMeans(report: Report)
    ensures Outcome(report) == match report case Success => Installed case Aborted => Cancelled case _ => Failed
    ensures Told(report) == match report
                            case Storage => "Not enough free space to install the update."
                            case Incompatible => "This update is not compatible with this device."
                            case Other(code) => "Android could not install the update (" + code + ")."
                            case _ => ""
  {
  }

  lemma OutcomeEnds(report: Report)
    ensures Outcome(report) !in {Checking, Permission, Installing}
  {
  }

  /** No receiver was taken off twice, and none that is on was ever taken off. */
  ghost predicate Once(unregistered: seq<nat>, registered: set<nat>, unused: nat) {
    && (forall r :: r in registered ==> r < unused && r !in unregistered)
    && (forall i :: 0 <= i < |unregistered| ==> unregistered[i] < unused)
    && forall i, j :: 0 <= i < j < |unregistered| ==> unregistered[i] != unregistered[j]
  }

  lemma OnceFresh(unregistered: seq<nat>, registered: set<nat>, unused: nat)
    requires Once(unregistered, registered, unused)
    ensures Once(unregistered, registered, unused + 1) && Once(unregistered, registered + {unused}, unused + 1)
  {
  }

  lemma OnceOff(unregistered: seq<nat>, registered: set<nat>, unused: nat, r: nat)
    requires Once(unregistered, registered, unused) && r in registered
    ensures Once(unregistered + [r], registered - {r}, unused)
  {
  }

  /** A check comes back at most once, and only before its operation reaches the installer. */
  ghost predicate Operations(unchecked: set<nat>, begun: set<nat>, generation: nat) {
    && (forall g :: g in unchecked ==> g <= generation && g !in begun)
    && forall g :: g in begun ==> g <= generation
  }

  lemma OperationStarts(unchecked: set<nat>, begun: set<nat>, generation: nat)
    requires Operations(unchecked, begun, generation) && generation !in unchecked
    ensures Operations(unchecked, begun + {generation}, generation)
  {
  }

  /**
    The live sessions are the one held and those whose abandonment failed.  What a sweep may still abandon, `doomed`,
    and what it has listed, is older than any session to come, and never the one held.
  */
  ghost predicate Accounted(sessions: set<nat>, held: Option<nat>, leaked: set<nat>, doomed: set<nat>,
                            listed: map<nat, set<nat>>, unused: nat) {
    && sessions == leaked + (if held.Some? then {held.value} else {})
    && (held.Some? ==> held.value !in leaked && held.value !in doomed)
    && (forall s :: s in sessions ==> s < unused)
    && (forall s :: s in doomed ==> s < unused)
    && forall g, s :: g in listed && s in listed[g] ==> s < unused
  }

  lemma AccountedLater(sessions: set<nat>, held: Option<nat>, leaked: set<nat>, doomed: set<nat>,
                       listed: map<nat, set<nat>>, unused: nat)
    requires Accounted(sessions, held, leaked, doomed, listed, unused)
    ensures Accounted(sessions, held, leaked, doomed, listed, unused + 1)
    ensures held.None? ==> Accounted(sessions + {unused}, Some(unused), leaked, doomed, listed, unused + 1)
  {
  }

  /** The session held is given up, and is over unless the system refuses. */
  lemma AccountedWithout(sessions: set<nat>, held: nat, leaked: set<nat>, doomed: set<nat>,
                         listed: map<nat, set<nat>>, unused: nat)
    requires Accounted(sessions, Some(held), leaked, doomed, listed, unused)
    ensures Accounted(sessions - {held}, None, leaked, doomed, listed, unused)
    ensures Accounted(sessions, None, leaked + {held}, doomed, listed, unused)
  {
  }

  lemma AccountedOnly(sessions: set<nat>, held: Option<nat>, leaked: set<nat>, doomed: set<nat>,
                      listed: map<nat, set<nat>>, unused: nat)
    requires Accounted(sessions, held, leaked, doomed, listed, unused)
    ensures held.None? ==> sessions == leaked
  {
  }

  lemma AccountedSweep(sessions: set<nat>, held: Option<nat>, leaked: set<nat>, doomed: set<nat>,
                       listed: map<nat, set<nat>>, unused: nat, s: nat)
    requires Accounted(sessions, held, leaked, doomed, listed, unused) && s in doomed
    ensures Accounted(sessions, held, leaked, doomed - {s}, listed, unused)
    ensures Accounted(sessions - {s}, held, leaked - {s}, doomed - {s}, listed, unused)
  {
  }

  lemma OperationsLater(unchecked: set<nat>, begun: set<nat>, generation: nat)
    requires Operations(unchecked, begun, generation)
    ensures Operations(unchecked, begun, generation + 1) && generation + 1 !in unchecked
  {
  }

  class Installer {
    var result: Status
    var message: string
    var pending: Option<string>
    var sessionId: Option<nat>
    var receiver: Option<nat>
    var generation: nat
    /** The system's side: live sessions and registered receivers of this app, and the next unused number. */
    var sessions: set<nat>
    var registered: set<nat>
    var unused: nat
    /** Every receiver taken off the system's list, in order. */
    ghost var unregistered: seq<nat>
    /** Operations whose check has not come back, and those that reached the installer. */
    ghost var unchecked: set<nat>
    ghost var begun: set<nat>
    /** Sessions that could not be abandoned, those a sweep has seen by operation, and those it goes on to abandon. */
    ghost var leaked: set<nat>
    ghost var listed: map<nat, set<nat>>
    ghost var doomed: set<nat>

    ghost predicate Valid()
      reads this
    {
      && (pending.Some? <==> result == Permission || result == Installing)
      && (receiver.Some? || sessionId.Some? ==> result == Installing)
      && Clean()
      && registered == (if receiver.Some? then {receiver.value} else {})
      && (generation in unchecked ==> result == Checking)
    }

    /** Every live session is accounted for; a receiver is taken off at most once. */
    ghost predicate Clean()
      reads this
    {
      && Accounted(sessions, sessionId, leaked, doomed, listed, unused)
      && Once(unregistered, registered, unused)
      && Operations(unchecked, begun, generation)
    }

    /** The installer and the system are as they were. */
    twostate predicate Same()
      reads this
    {
      && result == old(result) && message == old(message) && pending == old(pending) && sessionId == old(sessionId)
      && receiver == old(receiver) && generation == old(generation) && sessions == old(sessions)
      && registered == old(registered) && unregistered == old(unregistered) && leaked == old(leaked)
    }

    constructor ()
      ensures Valid() && result == Idle && generation == 0 && unregistered == []
    {
      result, message, pending, sessionId, receiver, generation := Idle, "", None, None, None, 0;
      sessions, registered, unused, unregistered, unchecked, begun := {}, {}, 0, [], {}, {};
      leaked, listed, doomed := {}, map[], {};
    }

    method CloseReceiver()
      requires Clean() && (receiver.Some? ==> registered <= {receiver.value}) && (receiver.None? ==> registered == {})
      modifies this`receiver, this`registered, this`unregistered
      ensures Clean() && receiver == None && registered == {}
      ensures unregistered == old(unregistered) +
                if old(receiver.Some? && receiver.value in registered) then [old(receiver.value)] else []
    {
      if receiver.Some? && receiver.value in registered {
        OnceOff(unregistered, registered, unused, receiver.value);
        unregistered := unregistered + [receiver.value];
        registered := registered - {receiver.value};
      }
      receiver := None;
    }

    /** Also ends an installation that is only half begun.  `abandoned` says whether the system ends the session. */
    method Cancel(abandoned: bool)
      requires Clean() && (receiver.Some? ==> registered <= {receiver.value}) && (receiver.None? ==> registered == {})
      modifies this
      ensures Valid() && result == Cancelled && generation == old(generation) + 1 && message == old(message)
      ensures GivenUp(abandoned)
    {
      hide Once, Operations, Accounted;
      OperationsLater(unchecked, begun, generation);
      generation := generation + 1;
      LetGo(abandoned);
      pending := None;
      result := Cancelled;
    }

    /** The session held is let go; unless the system has ended it, it stays on as an orphan. */
    method DropSession(ended: bool)
      requires Clean()
      modifies this`sessionId, this`sessions, this`leaked
      ensures Clean() && sessionId == None && sessions == leaked
      ensures leaked == old(leaked) + if old(sessionId.Some?) && !ended then {old(sessionId).value} else {}
    {
      if sessionId.Some? {
        AccountedWithout(sessions, sessionId.value, leaked, doomed, listed, unused);
        if ended {
          sessions := sessions - {sessionId.value};
        } else {
          leaked := leaked + {sessionId.value};
        }
      }
      sessionId := None;
      AccountedOnly(sessions, sessionId, leaked, doomed, listed, unused);
    }

    /** Lets go of the session and the receiver. */
    method LetGo(ended: bool)
      requires Clean() && (receiver.Some? ==> registered <= {receiver.value}) && (receiver.None? ==> registered == {})
      modifies this`sessionId, this`sessions, this`leaked, this`receiver, this`registered, this`unregistered
      ensures Clean() && sessionId == None && receiver == None && registered == {} && sessions == leaked
      ensures leaked == old(leaked) + if old(sessionId.Some?) && !ended then {old(sessionId).value} else {}
      ensures old(unregistered) <= unregistered
    {
      hide Once, Operations, Accounted;
      DropSession(ended);
      CloseReceiver();
    }

    /** Nothing is held any more; the session that was is over, unless it could not be abandoned. */
    twostate predicate GivenUp(abandoned: bool)
      reads this
    {
      && pending == None && sessionId == None && receiver == None && registered == {}
      && leaked == old(leaked) + (if old(sessionId.Some?) && !abandoned then {old(sessionId).value} else {})
      && sessions == leaked
      && old(unregistered) <= unregistered && unchecked == old(unchecked) && begun == old(begun)
      && listed == old(listed) && doomed == old(doomed)
    }

    method Fail(error: string, abandoned: bool)
      requires Clean() && (receiver.Some? ==> registered <= {receiver.value}) && (receiver.None? ==> registered == {})
      modifies this
      ensures Valid() && result == Failed && generation == old(generation) + 1 && message == error
      ensures GivenUp(abandoned)
    {
      Cancel(abandoned);
      message := error;
      result := Failed;
    }

    /** Starts an update unless one is under way. */
    method Begin(allowed: bool) returns (operation: Option<nat>)
      requires Valid()
      modifies this`result, this`message, this`generation, this`unchecked
      ensures Valid() && unchecked == old(unchecked) + if operation.Some? then {generation} else {}
      ensures operation.Some? <==> allowed && old(result) !in {Checking, Permission, Installing}
      ensures operation.Some? ==>
                operation.value == generation == old(generation) + 1 && result == Checking && message == ""
      ensures operation.None? ==> unchanged(this)
    {
      if !allowed || result in {Checking, Permission, Installing} {
        return None;
      }
      result, message := Checking, "";
      generation := generation + 1;
      unchecked := unchecked + {generation};
      operation := Some(generation);
    }

    /** The background thread of an operation asks the system for this app's sessions. */
    ghost method ListSessions(operation: nat)
      requires Valid() && operation in unchecked
      modifies this`listed
      ensures Valid() && listed == old(listed)[operation := sessions]
    {
      listed := listed[operation := sessions];
    }

    /** It goes on to abandon one of them only if its operation is still the current one. */
    ghost method PickOrphan(operation: nat, s: nat)
      requires Valid() && operation in unchecked && operation in listed && s in listed[operation]
      modifies this`doomed
      ensures Valid() && doomed == old(doomed) + if operation == generation then {s} else {}
    {
      if generation == operation {
        doomed := doomed + {s};
      }
    }

    /** It abandons the session, however late: nothing but an orphan is lost. */
    method AbandonOrphan(s: nat, abandoned: bool)
      requires Valid() && s in doomed
      modifies this`sessions, this`leaked, this`doomed
      ensures Valid() && doomed == old(doomed) - {s}
      ensures Some(s) != sessionId && sessions == old(sessions) - if abandoned then {s} else {}
      ensures leaked == old(leaked) - if abandoned then {s} else {}
    {
      AccountedSweep(sessions, sessionId, leaked, doomed, listed, unused, s);
      doomed := doomed - {s};
      if abandoned {
        sessions, leaked := sessions - {s}, leaked - {s};
      }
    }

    /** The background check is done: the update is ready, or the check failed. */
    method Checked(operation: nat, file: Result<string, string>, mayInstall: Result<bool, string>,
                   asked: Result<(), string>, start: Start, error: string, abandoned: bool)
      requires Valid() && operation in unchecked
      modifies this
      ensures Valid() && unchecked == old(unchecked) - {operation}
      ensures operation != old(generation) ==> Same()
      ensures operation == old(generation) ==>
                match file
                case Err(e) => result == Failed && message == e
                case Ok(_) =>
                  match mayInstall
                  case Err(e) => result == Failed && message == e
                  case Ok(may) =>
                    if may then result == (if start.Started? then Installing else Failed)
                    else result == (if asked.Ok? then Permission else Failed)
      ensures operation == old(generation) && pending.Some? ==> file.Ok? && pending.value == file.value
    {
      unchecked := unchecked - {operation};
      if generation != operation {
        return;
      }
      match file {
        case Err(e) => Fail(e, abandoned);
        case Ok(path) =>
          pending := Some(path);
          match mayInstall {
            case Err(e) => Fail(e, abandoned);
            case Ok(may) =>
              if may {
                Install(start, error, abandoned);
              } else {
                result := Permission;
                if asked.Err? {
                  Fail(asked.error, abandoned);
                }
              }
          }
      }
    }

    /** Back from the system's settings. */
    method PermissionReturned(mayInstall: Result<bool, string>, start: Start, error: string, abandoned: bool)
      returns (handled: bool)
      requires Valid()
      modifies this
      ensures Valid() && handled == (old(result) == Permission)
      ensures !handled ==> unchanged(this)
      ensures handled ==>
                match mayInstall
                case Err(e) => result == Failed && message == e
                case Ok(may) => result == if !may then Cancelled else if start.Started? then Installing else Failed
    {
      if result != Permission {
        return false;
      }
      handled := true;
      match mayInstall {
        case Err(e) => Fail(e, abandoned);
        case Ok(may) =>
          if may {
            Install(start, error, abandoned);
          } else {
            result, pending := Cancelled, None;
          }
      }
    }

    /** Registers a receiver and opens a session; any failure on the way undoes both. */
    method Install(start: Start, error: string, abandoned: bool)
      requires Clean() && pending.Some? && receiver == None && sessionId == None && registered == {}
      requires generation !in unchecked
      modifies this
      ensures Valid() && unchecked == old(unchecked)
      ensures result == if start.Started? then Installing else Failed
      ensures start.Started? ==> sessionId.Some? && |registered| == 1 && generation == old(generation)
      ensures start.Started? ==> unregistered == old(unregistered) && pending == old(pending)
      ensures !start.Started? ==>
                message == (if start.InCall? then IN_CALL else error) && sessionId == None && registered == {}
    {
      hide Once, Operations, Accounted;
      result := Installing;
      if start.InCall? {
        Fail(IN_CALL, abandoned);
        return;
      }
      OperationStarts(unchecked, begun, generation);
      begun := begun + {generation};
      Attempt(start);
      if !start.Started? {
        Fail(error, abandoned);
      }
    }

    /** The part of an installation that may stop half way. */
    method Attempt(start: Start)
      requires Clean() && receiver == None && sessionId == None && registered == {} && !start.InCall?
      modifies this`receiver, this`registered, this`sessionId, this`sessions, this`unused
      ensures Clean() && receiver.Some? && registered <= {receiver.value}
      ensures start.Started? ==> sessionId.Some? && registered == {receiver.value}
    {
      hide Once, Operations, Accounted;
      OnceFresh(unregistered, registered, unused);
      AccountedLater(sessions, sessionId, leaked, doomed, listed, unused);
      receiver, unused := Some(unused), unused + 1;
      if start.RegistrationFails? {
        return;
      }
      registered := registered + {receiver.value};
      if start.SessionFails? {
        return;
      }
      OnceFresh(unregistered, registered, unused);
      AccountedLater(sessions, sessionId, leaked, doomed, listed, unused);
      sessionId, sessions, unused := Some(unused), sessions + {unused}, unused + 1;
    }

    /** Writing the package into its session failed. */
    method WriterFailed(operation: nat, error: string, abandoned: bool)
      requires Valid() && operation in begun
      modifies this
      ensures Valid()
      ensures operation != old(generation) ==> unchanged(this)
      ensures operation == old(generation) ==> result == Failed && message == error
    {
      if generation == operation {
        Fail(error, abandoned);
      }
    }

    /** The system reports on the session, which is over unless it only asks for confirmation. */
    method OnReceive(operation: nat, report: Report, error: string, abandoned: bool)
      requires Valid() && operation in begun
      modifies this
      ensures Valid()
      ensures operation != old(generation) ==> unchanged(this)
      ensures operation == old(generation) ==>
                match report
                case Confirm(shown) => if shown then unchanged(this) else result == Failed && message == error
                case Success => result == Installed && message == "" && generation == old(generation) && GivenUp(true)
                case Aborted => result == Cancelled && message == "" && generation == old(generation) && GivenUp(true)
                case Storage => result == Failed && message == "Not enough free space to install the update." &&
                                generation == old(generation) && GivenUp(true)
                case Incompatible => result == Failed && message == "This update is not compatible with this device." &&
                                     generation == old(generation) && GivenUp(true)
                case Other(code) => result == Failed && generation == old(generation) && GivenUp(true) &&
                                    message == "Android could not install the update (" + code + ")."
    {
      if generation != operation {
        return;
      }
      if report.Confirm? {
        if !report.shown {
          Fail(error, abandoned);
        }
        return;
      }
      ReportMeans(report);
      hide *;
      EndReport(report);
    }

    /** The installation is over, and so is its session. */
    method EndReport(report: Report)
      requires Valid() && generation !in unchecked && !report.Confirm?
      modifies this
      ensures Valid() && result == Outcome(report) && message == Told(report) && generation == old(generation)
      ensures GivenUp(true)
    {
      OutcomeEnds(report);
      hide Once, Operations, Told, Accounted, Outcome;
      message := Told(report);
      LetGo(true);
      pending := None;
      result := Outcome(report);
    }
  }

  /**
    In every interleaving: a file is pending exactly while permission is asked or the installation runs; at most one
    session is held and one receiver registered, and only then; all other live sessions are those that could not be
    abandoned; no sweep is about to abandon the session held; and no receiver is ever taken off twice.
  */
  lemma OneOfEach(i: Installer)
    requires i.Valid()
    ensures i.pending.Some? <==> i.result in {Permission, Installing}
    ensures i.sessionId.Some? ==> i.result == Installing && i.sessionId.value in i.sessions - i.leaked - i.doomed
    ensures forall s :: s in i.sessions ==> Some(s) == i.sessionId || s in i.leaked
    ensures forall r :: r in i.registered ==> Some(r) == i.receiver && i.result == Installing && r !in i.unregistered
    ensures forall j, k :: 0 <= j < k < |i.unregistered| ==> i.unregistered[j] != i.unregistered[k]
  {
    hide Operations;
  }
}
