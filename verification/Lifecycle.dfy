/** The guarded status table and its setter (core/lifecycle.py, core/models.py). */
module Lifecycle {
  import opened Common

  datatype Status =
    | Pending | PendingApproval | Accepted | Rejected | Active
    | Interrupted | Resuming | Complete | Failed | Cancelled

  predicate IsTerminal(s: Status) {
    s.Complete? || s.Failed? || s.Rejected? || s.Cancelled?
  }

  function Allowed(s: Status): set<Status> {
    match s
    case Pending => {PendingApproval, Active, Interrupted, Failed, Cancelled}
    case PendingApproval => {Accepted, Rejected, Failed, Cancelled}
    case Accepted => {Active, Resuming, Failed, Cancelled}
    case Active => {Interrupted, Resuming, Complete, Failed, Cancelled}
    case Interrupted => {Resuming, Failed, Cancelled}
    case Resuming => {Active, Interrupted, Complete, Failed, Cancelled}
    case Complete => {}
    case Failed => {}
    case Rejected => {}
    case Cancelled => {}
  }

  /** What a request meets: a change, an idempotent assignment, or InvalidTransferTransition. */
  datatype Verdict = Applied | Unchanged | Refused

  function Judge(current: Status, target: Status, force: bool := false): Verdict {
    if current == target then Unchanged
    else if !force && target !in Allowed(current) then Refused
    else Applied
  }

  function After(current: Status, target: Status, force: bool := false): Status {
    if Judge(current, target, force).Refused? then current else target
  }

  /** The mutable record of one file in a transfer. */
  class TransferInfo {
    const fileId: string
    const filesize: nat
    var status: Status
    var error: Option<string>
    var completedAt: Option<real>
    var finalPath: Option<string>
    var bytesTransferred: nat
    var bytesThisAttempt: nat
    var resumeOffset: nat
    var retryCount: nat
    var sha256: Option<string>

    constructor (fileId: string, filesize: nat, status: Status, offset: nat, sha256: Option<string>)
      ensures this.fileId == fileId && this.filesize == filesize && this.status == status
      ensures bytesTransferred == resumeOffset == offset && bytesThisAttempt == 0 && retryCount == 0
      ensures error.None? && completedAt.None? && finalPath.None? && this.sha256 == sha256
    {
      this.fileId, this.filesize, this.status, this.sha256 := fileId, filesize, status, sha256;
      bytesTransferred, resumeOffset, bytesThisAttempt, retryCount := offset, offset, 0, 0;
      error, completedAt, finalPath := None, None, None;
    }

    method SetStatus(target: Status, reason: Option<string>, force: bool, now: real) returns (v: Verdict)
      modifies this`status, this`error, this`completedAt
      ensures v == Judge(old(status), target, force)
      ensures status == After(old(status), target, force)
      ensures error == if v.Applied? || (v.Unchanged? && reason.Some?) then reason else old(error)
      ensures completedAt == if v.Applied? && IsTerminal(target) then Some(now) else old(completedAt)
    {
      if status == target {
        if reason.Some? { error := reason; }
        return Unchanged;
      }
      if !force && target !in Allowed(status) {
        return Refused;
      }
      status, error := target, reason;
      if IsTerminal(target) { completedAt := Some(now); }
      return Applied;
    }
  }

  /** A run of unforced requests; refused ones leave the record as it was. */
  function AfterAll(s: Status, requests: seq<Status>): Status
    decreases |requests|
  {
    if requests == [] then s else AfterAll(After(s, requests[0]), requests[1..])
  }

  lemma {:induction false} TerminalIsAbsorbing(s: Status, requests: seq<Status>)
    requires IsTerminal(s)
    ensures AfterAll(s, requests) == s
    decreases |requests|
  {
    if requests != [] {
      assert After(s, requests[0]) == s;
      TerminalIsAbsorbing(s, requests[1..]);
    }
  }

  /** Absorbing is exactly terminal: from any other status some request sequence moves on. */
  lemma AbsorbingIffTerminal(s: Status)
    ensures IsTerminal(s) <==> forall requests: seq<Status> :: AfterAll(s, requests) == s
  {
    if IsTerminal(s) {
      forall requests: seq<Status> ensures AfterAll(s, requests) == s {
        TerminalIsAbsorbing(s, requests);
      }
    } else {
      var exit := [Failed];
      assert exit[1..] == [];
      assert AfterAll(s, exit) == Failed;
      assert exists requests: seq<Status> :: AfterAll(s, requests) != s;
    }
  }

  /** FAILED and CANCELLED are the only requests no live record ever refuses, which is why
      the error handlers that use them cannot themselves be refused on a live record. */
  lemma UniversalExits(target: Status)
    ensures target.Failed? || target.Cancelled?
            <==> forall s: Status :: !IsTerminal(s) ==> !Judge(s, target).Refused?
  {
    if !target.Failed? && !target.Cancelled? {
      assert Judge(PendingApproval, target).Refused? || Judge(Interrupted, target).Refused?;
    }
  }

  /** Every live record can still be brought to COMPLETE by a sequence without a refusal. */
  lemma LiveCanComplete(s: Status) returns (route: seq<Status>)
    requires !IsTerminal(s)
    ensures AfterAll(s, route) == Complete
    ensures forall k :: 0 <= k < |route| ==> !Judge(AfterAll(s, route[..k]), route[k]).Refused?
  {
    if s.PendingApproval? {
      route := [Accepted, Active, Complete];
      assert route[1..] == [Active, Complete] && route[2..] == [Complete];
      assert [Active, Complete][1..] == [Complete] && [Complete][1..] == [];
      assert route[..0] == [] && route[..1] == [Accepted] && route[..2] == [Accepted, Active];
      assert [Accepted, Active][1..] == [Active] && [Accepted][1..] == [] && [Active][1..] == [];
    } else if s.Pending? || s.Accepted? {
      route := [Active, Complete];
      assert route[1..] == [Complete] && route[..0] == [] && route[..1] == [Active] && [Active][1..] == [];
    } else if s.Interrupted? {
      route := [Resuming, Complete];
      assert route[1..] == [Complete] && route[..0] == [] && route[..1] == [Resuming] && [Resuming][1..] == [];
    } else {
      route := [Complete];
      assert route[1..] == [] && route[..0] == [];
    }
  }
}
