/** The sender's retry worker (core/transfer.py, _batch_worker, _send_session and the status
    requests of _send_v3_payload): which requests are refused, and when every file ends terminal. */
module Worker {
  import opened Common
  import opened Lifecycle

  /** The exception classes the worker catches, in the order of its handlers. */
  datatype Failure = RejectedByPeer | NoApproval | CancelledByUser | AuthOrProtocol | BadTag | Network

  /** One _send_session: whether the peer accepted, which offsets were non-zero, how many files got
      their positive result, whether one more had begun, and the exception that ended it, if any. */
  datatype Session = Session(accepted: bool, resumed: seq<bool>, done: nat, begun: bool, failure: Option<Failure>)

  /** What one round of the retry loop meets; `cancelled` covers the check and the delay before it. */
  datatype Round = Round(cancelled: bool, session: Session)

  /** Nothing that can fail lies between the result for one file and the start of the next. */
  predicate Possible(s: Session, n: nat) {
    && |s.resumed| == n && s.done <= n
    && (s.begun ==> s.done < n) && (!s.begun ==> s.done == 0 || s.done == n)
    && (!s.accepted ==> s.failure.Some? && s.done == 0 && !s.begun)
    && (s.accepted ==> s.failure != Some(RejectedByPeer) && s.failure != Some(NoApproval))
    && (s.failure.None? ==> s.done == n)
  }

  predicate PossibleWorld(world: seq<Round>, n: nat) {
    |world| == MAX_RETRIES + 1 && forall k :: 0 <= k < |world| ==> Possible(world[k].session, n)
  }

  /** InvalidTransferTransition: a ValueError, which no handler of the worker catches. */
  datatype Crash = Crash(from: Status, target: Status)

  datatype Flow = Flow(statuses: seq<Status>, crash: Option<Crash>)

  function Ask(ss: seq<Status>, i: nat, target: Status): (f: Flow)
    requires i < |ss|
    ensures |f.statuses| == |ss|
  {
    if Judge(ss[i], target).Refused? then Flow(ss, Some(Crash(ss[i], target)))
    else Flow(ss[i := After(ss[i], target)], None)
  }

  /** The request made of every file that is not terminal, in order, from the i-th on. */
  function AskLive(ss: seq<Status>, target: Status, i: nat): (f: Flow)
    ensures |f.statuses| == |ss|
    decreases |ss| - i
  {
    if i >= |ss| then Flow(ss, None)
    else if IsTerminal(ss[i]) then AskLive(ss, target, i + 1)
    else
      var f := Ask(ss, i, target);
      if f.crash.Some? then f else AskLive(f.statuses, target, i + 1)
  }

  function AcceptAll(ss: seq<Status>, i: nat): (f: Flow)
    ensures |f.statuses| == |ss|
    decreases |ss| - i
  {
    if i >= |ss| then Flow(ss, None)
    else if !ss[i].PendingApproval? then AcceptAll(ss, i + 1)
    else
      var f := Ask(ss, i, Accepted);
      if f.crash.Some? then f else AcceptAll(f.statuses, i + 1)
  }

  function Begin(ss: seq<Status>, i: nat, resumed: bool): (f: Flow)
    requires i < |ss|
    ensures |f.statuses| == |ss|
  {
    if IsTerminal(ss[i]) then Flow(ss, None)
    else
      var f := Ask(ss, i, if resumed then Resuming else Active);
      if f.crash.Some? || !f.statuses[i].Resuming? then f else Ask(f.statuses, i, Active)
  }

  /** A file from its start to its positive result. */
  function SendOne(ss: seq<Status>, i: nat, resumed: bool): (f: Flow)
    requires i < |ss|
    ensures |f.statuses| == |ss|
  {
    var b := Begin(ss, i, resumed);
    if b.crash.Some? then b else Ask(b.statuses, i, Complete)
  }

  function SendFiles(ss: seq<Status>, s: Session, i: nat): (f: Flow)
    requires Possible(s, |ss|) && i <= s.done
    ensures |f.statuses| == |ss|
    decreases s.done - i
  {
    if i == s.done then
      if s.begun then Begin(ss, i, s.resumed[i]) else Flow(ss, None)
    else
      var f := SendOne(ss, i, s.resumed[i]);
      if f.crash.Some? then f else SendFiles(f.statuses, s, i + 1)
  }

  lemma SendFilesStep(ss: seq<Status>, s: Session, i: nat)
    requires Possible(s, |ss|) && i < s.done
    ensures var f := SendOne(ss, i, s.resumed[i]);
            SendFiles(ss, s, i) == if f.crash.Some? then f else SendFiles(f.statuses, s, i + 1)
  {
  }

  function RunSession(ss: seq<Status>, s: Session): (f: Flow)
    requires Possible(s, |ss|)
    ensures |f.statuses| == |ss|
  {
    if !s.accepted then Flow(ss, None)
    else
      var a := AcceptAll(ss, 0);
      if a.crash.Some? then a else SendFiles(a.statuses, s, 0)
  }

  function HandlerTarget(failure: Failure, attempt: nat): Status {
    match failure
    case RejectedByPeer => Rejected
    case NoApproval => Failed
    case CancelledByUser => Cancelled
    case AuthOrProtocol => Failed
    case BadTag => Failed
    case Network => if attempt == MAX_RETRIES then Failed else Interrupted
  }

  /** How the worker thread ends: a session returned, a handler returned, the attempts ran out, or
      a refused request went uncaught. */
  datatype End = AllSent | Stopped(failure: Failure) | GivenUp | Aborted(crash: Crash)

  datatype Outcome = Outcome(statuses: seq<Status>, end: End, sessions: nat)

  function Finish(f: Flow, end: End, sessions: nat): Outcome {
    Outcome(f.statuses, if f.crash.Some? then Aborted(f.crash.value) else end, sessions)
  }

  /** One round of the retry loop: it ends the worker or hands the statuses to the next round. */
  datatype Step = Ends(outcome: Outcome) | GoesOn(statuses: seq<Status>)

  function OneRound(ss: seq<Status>, round: Round, attempt: nat): (step: Step)
    requires Possible(round.session, |ss|)
    ensures step.GoesOn? ==> |step.statuses| == |ss|
  {
    if round.cancelled then Ends(Finish(AskLive(ss, Cancelled, 0), Stopped(CancelledByUser), attempt))
    else
      var ready := if attempt > 0 then AskLive(ss, Resuming, 0) else Flow(ss, None);
      if ready.crash.Some? then Ends(Finish(ready, GivenUp, attempt))
      else
        var s := round.session;
        var sent := RunSession(ready.statuses, s);
        if sent.crash.Some? || s.failure.None? then Ends(Finish(sent, AllSent, attempt + 1))
        else
          var handled := AskLive(sent.statuses, HandlerTarget(s.failure.value, attempt), 0);
          if handled.crash.Some? || !s.failure.value.Network?
          then Ends(Finish(handled, Stopped(s.failure.value), attempt + 1))
          else GoesOn(handled.statuses)
  }

  function Work(ss: seq<Status>, world: seq<Round>, attempt: nat): Outcome
    requires PossibleWorld(world, |ss|) && attempt <= MAX_RETRIES
    decreases MAX_RETRIES - attempt
  {
    match OneRound(ss, world[attempt], attempt)
    case Ends(outcome) => outcome
    case GoesOn(after) =>
      if attempt == MAX_RETRIES then Outcome(after, GivenUp, attempt + 1) else Work(after, world, attempt + 1)
  }

  function Offered(n: nat): (ss: seq<Status>)
    ensures |ss| == n && forall i :: 0 <= i < n ==> ss[i] == PendingApproval
  {
    seq(n, _ => PendingApproval)
  }

  // ---- what the loops over the files do

  predicate Willing(s: Status, target: Status) { IsTerminal(s) || !Judge(s, target).Refused? }

  /** Either every live file moves, or the first unwilling one stops the loop and the thread. */
  lemma {:induction false} AskLiveMeaning(ss: seq<Status>, target: Status, i: nat) returns (stop: nat)
    requires i <= |ss|
    ensures i <= stop <= |ss| && forall j :: i <= j < stop ==> Willing(ss[j], target)
    ensures var f := AskLive(ss, target, i);
            && (f.crash.None? <==> stop == |ss|)
            && (stop < |ss| ==> !Willing(ss[stop], target) && f.crash == Some(Crash(ss[stop], target)))
            && forall j :: 0 <= j < |ss| ==>
                 f.statuses[j] == if i <= j < stop && !IsTerminal(ss[j]) then target else ss[j]
    decreases |ss| - i
  {
    if i == |ss| {
      stop := i;
    } else if IsTerminal(ss[i]) {
      stop := AskLiveMeaning(ss, target, i + 1);
    } else if Judge(ss[i], target).Refused? {
      stop := i;
    } else {
      var next := ss[i := target];
      assert Ask(ss, i, target) == Flow(next, None);
      stop := AskLiveMeaning(next, target, i + 1);
      forall j | i <= j < stop ensures Willing(ss[j], target) {
        assert j > i ==> Willing(next[j], target);
      }
    }
  }

  lemma {:induction false} AcceptAllMeaning(ss: seq<Status>, i: nat)
    requires i <= |ss|
    ensures AcceptAll(ss, i).crash.None?
    ensures forall j :: 0 <= j < |ss| ==>
              AcceptAll(ss, i).statuses[j] == if i <= j && ss[j].PendingApproval? then Accepted else ss[j]
    decreases |ss| - i
  {
    if i < |ss| {
      AcceptAllMeaning(if ss[i].PendingApproval? then ss[i := Accepted] else ss, i + 1);
    }
  }

  /** The first `done` files complete, at most one more active, the others alike. */
  predicate Shape(ss: seq<Status>, done: nat, begun: bool, rest: Status) {
    forall i :: 0 <= i < |ss| ==>
      ss[i] == if i < done then Complete else if i == done && begun then Active else rest
  }

  /** No request made inside a session is refused. */
  lemma {:induction false} SendFilesMeaning(ss: seq<Status>, s: Session, i: nat, best: nat, rest: Status)
    requires Possible(s, |ss|) && i <= s.done && best <= |ss|
    requires rest.Accepted? || rest.Resuming?
    requires Shape(ss, Max(best, i), false, rest)
    ensures SendFiles(ss, s, i).crash.None?
    ensures Shape(SendFiles(ss, s, i).statuses, Max(best, s.done), s.begun && best <= s.done, rest)
    decreases s.done - i
  {
    if i < s.done {
      var b := Begin(ss, i, s.resumed[i]);
      assert b.crash.None? && b.statuses[i] == if i < best then Complete else Active;
      SendFilesMeaning(b.statuses[i := Complete], s, i + 1, best, rest);
    }
  }

  // ---- the characterisation

  function Best(best: nat, s: Session): nat { if s.accepted then Max(best, s.done) else best }

  /** The refusal the worker runs into, read off the failures it meets: a first attempt that fails on
      the network with some file not begun, or a rejection on a retry with some file not complete. */
  function Doom(world: seq<Round>, n: nat, attempt: nat, best: nat): Option<Crash>
    requires PossibleWorld(world, n) && attempt <= MAX_RETRIES
    decreases MAX_RETRIES - attempt
  {
    var s := world[attempt].session;
    if world[attempt].cancelled then None
    else if s.failure == Some(RejectedByPeer) then
      if attempt > 0 && best < n then Some(Crash(Resuming, Rejected)) else None
    else if s.failure != Some(Network) then None
    else if attempt == 0 && !s.accepted && n > 0 then Some(Crash(PendingApproval, Interrupted))
    else if attempt == 0 && s.accepted && s.done + (if s.begun then 1 else 0) < n
    then Some(Crash(Accepted, Interrupted))
    else if attempt == MAX_RETRIES then None
    else Doom(world, n, attempt + 1, Best(best, s))
  }

  predicate AllTerminal(ss: seq<Status>) { forall i :: 0 <= i < |ss| ==> IsTerminal(ss[i]) }

  predicate AllComplete(ss: seq<Status>) { forall i :: 0 <= i < |ss| ==> ss[i].Complete? }

  predicate AsPredicted(o: Outcome, doom: Option<Crash>) {
    && 0 <= o.sessions <= MAX_RETRIES + 1
    && (o.end.AllSent? ==> AllComplete(o.statuses))
    && (match doom
        case Some(crash) => o.end == Aborted(crash) && !AllTerminal(o.statuses)
        case None => !o.end.Aborted? && AllTerminal(o.statuses))
  }

  /** The statuses the session starts from. */
  predicate Ready(ss: seq<Status>, attempt: nat, best: nat) {
    && best <= |ss| && (attempt == 0 ==> best == 0)
    && Shape(ss, best, false, if attempt == 0 then PendingApproval else Resuming)
  }

  lemma SessionShape(ss: seq<Status>, s: Session, attempt: nat, best: nat)
    requires Possible(s, |ss|) && Ready(ss, attempt, best)
    ensures RunSession(ss, s).crash.None?
    ensures s.accepted ==> Shape(RunSession(ss, s).statuses, Best(best, s), s.begun && best <= s.done,
                                 if attempt == 0 then Accepted else Resuming)
    ensures !s.accepted ==> RunSession(ss, s).statuses == ss
  {
    if s.accepted {
      AcceptAllMeaning(ss, 0);
      SendFilesMeaning(AcceptAll(ss, 0).statuses, s, 0, best, if attempt == 0 then Accepted else Resuming);
    }
  }

  lemma HandledStays(ss: seq<Status>, target: Status)
    requires IsTerminal(target)
    ensures var f := AskLive(ss, target, 0);
            if f.crash.None? then AllTerminal(f.statuses) else !AllTerminal(f.statuses)
  {
    var stop := AskLiveMeaning(ss, target, 0);
    if stop < |ss| { assert !IsTerminal(AskLive(ss, target, 0).statuses[stop]); }
  }

  /** The handlers other than the one for the network, and the network one on the last attempt. */
  lemma HandlerEnds(ss: seq<Status>, s: Session, attempt: nat, best: nat)
    requires Possible(s, |ss|) && Ready(ss, attempt, best) && s.failure.Some?
    requires s.failure == Some(Network) ==> attempt == MAX_RETRIES
    ensures var f := AskLive(RunSession(ss, s).statuses, HandlerTarget(s.failure.value, attempt), 0);
            && (AllTerminal(f.statuses) <==> f.crash.None?)
            && f.crash == if s.failure.value.RejectedByPeer? && attempt > 0 && best < |ss|
                          then Some(Crash(Resuming, Rejected)) else None
  {
    SessionShape(ss, s, attempt, best);
    var sent, target := RunSession(ss, s).statuses, HandlerTarget(s.failure.value, attempt);
    HandledStays(sent, target);
    var stop := AskLiveMeaning(sent, target, 0);
    if s.failure.value.RejectedByPeer? && attempt > 0 && best < |ss| {
      assert !Willing(sent[best], target);
    } else {
      assert forall j :: 0 <= j < |ss| ==> Willing(sent[j], target);
    }
  }

  /** The network handler with attempts left. */
  lemma NetworkInterrupts(ss: seq<Status>, s: Session, attempt: nat, best: nat)
    requires Possible(s, |ss|) && Ready(ss, attempt, best) && s.failure == Some(Network) && attempt < MAX_RETRIES
    ensures var f := AskLive(RunSession(ss, s).statuses, Interrupted, 0);
            && (f.crash.None? ==> Best(best, s) <= |ss| && Shape(f.statuses, Best(best, s), false, Interrupted))
            && (f.crash.Some? ==> !AllTerminal(f.statuses))
            && f.crash == (if attempt == 0 && !s.accepted && |ss| > 0 then Some(Crash(PendingApproval, Interrupted))
                           else if attempt == 0 && s.accepted && s.done + (if s.begun then 1 else 0) < |ss|
                             then Some(Crash(Accepted, Interrupted))
                           else None)
  {
    SessionShape(ss, s, attempt, best);
    var sent := RunSession(ss, s).statuses;
    var stop := AskLiveMeaning(sent, Interrupted, 0);
    if stop < |ss| {
      assert !Willing(sent[stop], Interrupted);
      assert !IsTerminal(AskLive(sent, Interrupted, 0).statuses[stop]);
    }
    if attempt == 0 && s.accepted && s.done + (if s.begun then 1 else 0) < |ss| {
      assert !Willing(sent[|ss| - 1], Interrupted);
    } else if attempt == 0 && !s.accepted && |ss| > 0 {
      assert !Willing(sent[0], Interrupted);
    }
  }

  lemma RetryResumes(ss: seq<Status>, attempt: nat, best: nat)
    requires best <= |ss| && attempt > 0 && Shape(ss, best, false, Interrupted)
    ensures AskLive(ss, Resuming, 0).crash.None? && Ready(AskLive(ss, Resuming, 0).statuses, attempt, best)
  {
    var stop := AskLiveMeaning(ss, Resuming, 0);
    if stop < |ss| { assert Willing(ss[stop], Resuming); }
  }

  predicate BatchShape(ss: seq<Status>, attempt: nat, best: nat) {
    && best <= |ss| && (attempt == 0 ==> best == 0)
    && Shape(ss, best, false, if attempt == 0 then PendingApproval else Interrupted)
  }

  /** A round ends the worker as predicted for this round, or leaves the batch interrupted. */
  lemma RoundMeaning(ss: seq<Status>, world: seq<Round>, attempt: nat, best: nat)
    requires PossibleWorld(world, |ss|) && attempt <= MAX_RETRIES && BatchShape(ss, attempt, best)
    ensures match OneRound(ss, world[attempt], attempt)
            case Ends(outcome) => AsPredicted(outcome, Doom(world, |ss|, attempt, best))
            case GoesOn(after) =>
              var next := Best(best, world[attempt].session);
              if attempt == MAX_RETRIES
              then AsPredicted(Outcome(after, GivenUp, attempt + 1), Doom(world, |ss|, attempt, best))
              else BatchShape(after, attempt + 1, next)
                   && Doom(world, |ss|, attempt, best) == Doom(world, |ss|, attempt + 1, next)
  {
    if world[attempt].cancelled {
      HandledStays(ss, Cancelled);
      var stop := AskLiveMeaning(ss, Cancelled, 0);
    } else {
      var ready := if attempt > 0 then AskLive(ss, Resuming, 0).statuses else ss;
      if attempt > 0 { RetryResumes(ss, attempt, best); }
      var s := world[attempt].session;
      SessionShape(ready, s, attempt, best);
      if s.failure.Some? {
        if s.failure.value.Network? && attempt < MAX_RETRIES {
          NetworkInterrupts(ready, s, attempt, best);
        } else {
          HandlerEnds(ready, s, attempt, best);
        }
      }
    }
  }

  lemma {:induction false} WorkMeaning(ss: seq<Status>, world: seq<Round>, attempt: nat, best: nat)
    requires PossibleWorld(world, |ss|) && attempt <= MAX_RETRIES && BatchShape(ss, attempt, best)
    ensures AsPredicted(Work(ss, world, attempt), Doom(world, |ss|, attempt, best))
    decreases MAX_RETRIES - attempt
  {
    RoundMeaning(ss, world, attempt, best);
    var step := OneRound(ss, world[attempt], attempt);
    if step.GoesOn? && attempt < MAX_RETRIES {
      WorkMeaning(step.statuses, world, attempt + 1, Best(best, world[attempt].session));
    }
  }

  /** The worker, exactly: at most MAX_RETRIES + 1 sessions; a normal return means every file is
      COMPLETE; the thread dies on a refused request just when Doom says so, on that request, and
      then some file never becomes terminal; in every other run all files end terminal. */
  lemma WorkerCharacterised(n: nat, world: seq<Round>)
    requires PossibleWorld(world, n)
    ensures AsPredicted(Work(Offered(n), world, 0), Doom(world, n, 0, 0))
    ensures AllTerminal(Work(Offered(n), world, 0).statuses) <==> Doom(world, n, 0, 0).None?
  {
    WorkMeaning(Offered(n), world, 0, 0);
  }

  // ---- how the files end

  /** While the worker runs, a file is finished or under way. */
  predicate Running(ss: seq<Status>) { forall i :: 0 <= i < |ss| ==> ss[i].Complete? || !IsTerminal(ss[i]) }

  /** Every file is finished or has this status. */
  predicate FinishedOr(ss: seq<Status>, rest: Status) { forall i :: 0 <= i < |ss| ==> ss[i].Complete? || ss[i] == rest }

  lemma {:induction false} AcceptKeepsRunning(ss: seq<Status>, i: nat)
    requires Running(ss)
    ensures Running(AcceptAll(ss, i).statuses)
    decreases |ss| - i
  {
    if i < |ss| { AcceptKeepsRunning(if ss[i].PendingApproval? then Ask(ss, i, Accepted).statuses else ss, i + 1); }
  }

  lemma BeginKeepsRunning(ss: seq<Status>, i: nat, resumed: bool)
    requires Running(ss) && i < |ss|
    ensures Running(Begin(ss, i, resumed).statuses) && Running(SendOne(ss, i, resumed).statuses)
  {
  }

  lemma {:induction false} SendKeepsRunning(ss: seq<Status>, s: Session, i: nat)
    requires Running(ss) && Possible(s, |ss|) && i <= s.done
    ensures Running(SendFiles(ss, s, i).statuses)
    decreases s.done - i
  {
    if i < s.done {
      BeginKeepsRunning(ss, i, s.resumed[i]);
      SendKeepsRunning(SendOne(ss, i, s.resumed[i]).statuses, s, i + 1);
    } else if s.begun {
      BeginKeepsRunning(ss, i, s.resumed[i]);
    }
  }

  lemma SessionKeepsRunning(ss: seq<Status>, s: Session)
    requires Running(ss) && Possible(s, |ss|)
    ensures Running(RunSession(ss, s).statuses)
  {
    if s.accepted {
      AcceptKeepsRunning(ss, 0);
      SendKeepsRunning(AcceptAll(ss, 0).statuses, s, 0);
    }
  }

  lemma AskedAlike(ss: seq<Status>, target: Status)
    requires Running(ss) && AskLive(ss, target, 0).crash.None?
    ensures FinishedOr(AskLive(ss, target, 0).statuses, target)
    ensures !IsTerminal(target) ==> Running(AskLive(ss, target, 0).statuses)
  {
    var stop := AskLiveMeaning(ss, target, 0);
  }

  /** What the unfinished files become: the peer's rejection and the user's cancel show as such, every other
      end is a failure. */
  function Remainder(end: End): Status {
    if end == Stopped(RejectedByPeer) then Rejected else if end == Stopped(CancelledByUser) then Cancelled else Failed
  }

  predicate EndsAs(o: Outcome) { !o.end.Aborted? && !o.end.AllSent? ==> FinishedOr(o.statuses, Remainder(o.end)) }

  /** The end is the last session's: it returned, it raised this, or the user cancelled before another; all
      earlier ones broke down on the network. */
  predicate EndsOn(o: Outcome, world: seq<Round>) {
    && 0 <= o.sessions <= MAX_RETRIES + 1 == |world|
    && (forall k :: 0 <= k < o.sessions - 1 ==> !world[k].cancelled && world[k].session.failure == Some(Network))
    && (match o.end
        case AllSent => o.sessions > 0 && world[o.sessions - 1].session.failure.None?
        case Stopped(failure) =>
          || (failure.CancelledByUser? && o.sessions <= MAX_RETRIES && world[o.sessions].cancelled)
          || (!failure.Network? && o.sessions > 0 && world[o.sessions - 1].session.failure == Some(failure))
        case GivenUp =>
          o.sessions == MAX_RETRIES + 1 && world[MAX_RETRIES].session.failure == Some(Network)
        case Aborted(_) => true)
  }

  predicate NetworkBefore(world: seq<Round>, attempt: nat) {
    attempt <= |world|
    && forall k :: 0 <= k < attempt ==> !world[k].cancelled && world[k].session.failure == Some(Network)
  }

  lemma RoundEnds(ss: seq<Status>, world: seq<Round>, attempt: nat)
    requires PossibleWorld(world, |ss|) && attempt <= MAX_RETRIES && Running(ss) && NetworkBefore(world, attempt)
    ensures match OneRound(ss, world[attempt], attempt)
            case Ends(o) => EndsAs(o) && EndsOn(o, world)
            case GoesOn(after) =>
              && NetworkBefore(world, attempt + 1)
              && (if attempt < MAX_RETRIES then Running(after) else FinishedOr(after, Failed))
  {
    var s := world[attempt].session;
    if world[attempt].cancelled {
      if AskLive(ss, Cancelled, 0).crash.None? { AskedAlike(ss, Cancelled); }
    } else {
      var ready := if attempt > 0 then AskLive(ss, Resuming, 0) else Flow(ss, None);
      if ready.crash.None? {
        if attempt > 0 { AskedAlike(ss, Resuming); }
        SessionKeepsRunning(ready.statuses, s);
        var sent := RunSession(ready.statuses, s);
        if s.failure.Some? && AskLive(sent.statuses, HandlerTarget(s.failure.value, attempt), 0).crash.None? {
          AskedAlike(sent.statuses, HandlerTarget(s.failure.value, attempt));
        }
      }
    }
  }

  lemma {:induction false} WorkEnds(ss: seq<Status>, world: seq<Round>, attempt: nat)
    requires PossibleWorld(world, |ss|) && attempt <= MAX_RETRIES && Running(ss) && NetworkBefore(world, attempt)
    ensures EndsAs(Work(ss, world, attempt)) && EndsOn(Work(ss, world, attempt), world)
    decreases MAX_RETRIES - attempt
  {
    RoundEnds(ss, world, attempt);
    var step := OneRound(ss, world[attempt], attempt);
    if step.GoesOn? && attempt < MAX_RETRIES { WorkEnds(step.statuses, world, attempt + 1); }
  }

  /** Which end it is, and what the files that are not COMPLETE become with it: the last session decides,
      every earlier one having broken down on the network. */
  lemma WorkerEndsAs(n: nat, world: seq<Round>)
    requires PossibleWorld(world, n)
    ensures var o := Work(Offered(n), world, 0); EndsAs(o) && EndsOn(o, world)
  {
    WorkEnds(Offered(n), world, 0);
  }

  /** Only three requests are ever refused. */
  lemma {:induction false} OnlyThreeRefusals(world: seq<Round>, n: nat, attempt: nat, best: nat)
    requires PossibleWorld(world, n) && attempt <= MAX_RETRIES
    ensures var doom := Doom(world, n, attempt, best);
            doom.Some? ==>
              || doom.value == Crash(PendingApproval, Interrupted)
              || doom.value == Crash(Accepted, Interrupted)
              || doom.value == Crash(Resuming, Rejected)
    decreases MAX_RETRIES - attempt
  {
    if attempt < MAX_RETRIES { OnlyThreeRefusals(world, n, attempt + 1, Best(best, world[attempt].session)); }
  }

  function Unreachable(n: nat): Round {
    Round(false, Session(false, seq(n, _ => false), 0, false, Some(Network)))
  }

  /** A peer that cannot be reached at all already strands a whole batch in PENDING_APPROVAL, and
      the retries never happen. */
  lemma OfflinePeerStrandsTheBatch(n: nat)
    requires n > 0
    ensures var o := Work(Offered(n), seq(MAX_RETRIES + 1, _ => Unreachable(n)), 0);
            o.end == Aborted(Crash(PendingApproval, Interrupted)) && o.sessions == 1 && o.statuses == Offered(n)
  {
    var world := seq(MAX_RETRIES + 1, _ => Unreachable(n));
    WorkerCharacterised(n, world);
    var stop := AskLiveMeaning(Offered(n), Interrupted, 0);
    assert !Willing(Offered(n)[0], Interrupted);
    assert AskLive(Offered(n), Interrupted, 0).statuses == Offered(n);
  }

  // ---- the worker itself

  ghost function Statuses(infos: seq<TransferInfo>): (ss: seq<Status>)
    reads infos
    ensures |ss| == |infos| && forall i :: 0 <= i < |infos| ==> ss[i] == infos[i].status
  {
    seq(|infos|, i requires 0 <= i < |infos| reads infos => infos[i].status)
  }

  ghost predicate Distinct(infos: seq<TransferInfo>) {
    forall i, j :: 0 <= i < j < |infos| ==> infos[i] != infos[j]
  }

  /** set_status on one record of the batch. */
  method SetOne(infos: seq<TransferInfo>, i: nat, target: Status, reason: Option<string>, now: real)
      returns (crash: Option<Crash>)
    requires Distinct(infos) && i < |infos|
    modifies infos
    ensures Flow(Statuses(infos), crash) == Ask(old(Statuses(infos)), i, target)
    ensures forall k :: 0 <= k < |infos| ==> infos[k].retryCount == old(infos[k].retryCount)
    ensures crash.None? && reason.Some? ==> infos[i].error == reason
    ensures forall k :: 0 <= k < |infos| && (k != i || crash.Some?) ==> infos[k].error == old(infos[k].error)
  {
    var from := infos[i].status;
    var verdict := infos[i].SetStatus(target, reason, false, now);
    crash := if verdict.Refused? then Some(Crash(from, target)) else None;
    assert Statuses(infos) == Ask(old(Statuses(infos)), i, target).statuses;
  }

  lemma AskLiveStep(ss: seq<Status>, target: Status, i: nat)
    requires i < |ss|
    ensures var f := if IsTerminal(ss[i]) then Flow(ss, None) else Ask(ss, i, target);
            AskLive(ss, target, i) == if f.crash.Some? then f else AskLive(f.statuses, target, i + 1)
  {
  }

  /** The first i records are handled: those that had ended are as they were, the others say why; the rest
      have still to come. */
  ghost predicate Handled(infos: seq<TransferInfo>, was: seq<Status>, i: nat, reason: Option<string>)
    requires |was| == |infos|
    reads infos
  {
    && (forall k :: i <= k < |infos| ==> infos[k].status == was[k])
    && (forall k :: 0 <= k < i && k < |infos| && IsTerminal(was[k]) ==> infos[k].status == was[k])
    && (reason.Some? ==>
          forall k :: 0 <= k < i && k < |infos| && !IsTerminal(was[k]) ==> infos[k].error == reason)
  }

  /** One record of the handlers' loop: ended ones are passed over. */
  method SetIfLive(infos: seq<TransferInfo>, i: nat, target: Status, reason: Option<string>, now: real,
                   ghost was: seq<Status>)
      returns (crash: Option<Crash>)
    requires Distinct(infos) && i < |infos| == |was| && Handled(infos, was, i, reason)
    modifies infos
    ensures Flow(Statuses(infos), crash)
            == if IsTerminal(was[i]) then Flow(old(Statuses(infos)), None) else Ask(old(Statuses(infos)), i, target)
    ensures crash.None? ==> Handled(infos, was, i + 1, reason)
    ensures crash.Some? ==> Handled(infos, was, i, reason)
    ensures forall k :: 0 <= k < |infos| ==> infos[k].retryCount == old(infos[k].retryCount)
  {
    if IsTerminal(infos[i].status) { return None; }
    crash := SetOne(infos, i, target, reason, now);
    assert forall k :: 0 <= k < |infos| && k != i ==> Statuses(infos)[k] == old(Statuses(infos))[k];
  }

  /** The loop shared by the handlers and _mark_cancelled. */
  method SetLive(infos: seq<TransferInfo>, target: Status, reason: Option<string>, now: real)
      returns (crash: Option<Crash>)
    requires Distinct(infos)
    modifies infos
    ensures Flow(Statuses(infos), crash) == AskLive(old(Statuses(infos)), target, 0)
    ensures crash.None? ==> Handled(infos, old(Statuses(infos)), |infos|, reason)
    ensures forall k :: 0 <= k < |infos| ==> infos[k].retryCount == old(infos[k].retryCount)
  {
    ghost var was := Statuses(infos);
    ghost var ss := was;
    ghost var whole := AskLive(ss, target, 0);
    var i := 0;
    while i < |infos|
      invariant i <= |infos| && Statuses(infos) == ss && whole == AskLive(ss, target, i)
      invariant Handled(infos, was, i, reason)
      invariant forall k :: 0 <= k < |infos| ==> infos[k].retryCount == old(infos[k].retryCount)
    {
      AskLiveStep(ss, target, i);
      crash := SetIfLive(infos, i, target, reason, now, was);
      if crash.Some? { return; }
      ss := Statuses(infos);
      i := i + 1;
    }
    crash := None;
  }

  method Accept(infos: seq<TransferInfo>, now: real) returns (crash: Option<Crash>)
    requires Distinct(infos)
    modifies infos
    ensures Flow(Statuses(infos), crash) == AcceptAll(old(Statuses(infos)), 0)
    ensures forall k :: 0 <= k < |infos| ==> infos[k].retryCount == old(infos[k].retryCount)
  {
    ghost var whole := AcceptAll(Statuses(infos), 0);
    var i := 0;
    while i < |infos|
      invariant i <= |infos| && whole == AcceptAll(Statuses(infos), i)
      invariant forall k :: 0 <= k < |infos| ==> infos[k].retryCount == old(infos[k].retryCount)
    {
      if infos[i].status.PendingApproval? {
        crash := SetOne(infos, i, Accepted, None, now);
        if crash.Some? { return; }
      }
      i := i + 1;
    }
    crash := None;
  }

  method BeginFile(infos: seq<TransferInfo>, i: nat, resumed: bool, now: real) returns (crash: Option<Crash>)
    requires Distinct(infos) && i < |infos|
    modifies infos
    ensures Flow(Statuses(infos), crash) == Begin(old(Statuses(infos)), i, resumed)
    ensures forall k :: 0 <= k < |infos| ==> infos[k].retryCount == old(infos[k].retryCount)
  {
    crash := None;
    if !IsTerminal(infos[i].status) {
      crash := SetOne(infos, i, if resumed then Resuming else Active, None, now);
      if crash.None? && infos[i].status.Resuming? {
        crash := SetOne(infos, i, Active, None, now);
      }
    }
  }

  method SendFile(infos: seq<TransferInfo>, i: nat, resumed: bool, now: real) returns (crash: Option<Crash>)
    requires Distinct(infos) && i < |infos|
    modifies infos
    ensures Flow(Statuses(infos), crash) == SendOne(old(Statuses(infos)), i, resumed)
    ensures forall k :: 0 <= k < |infos| ==> infos[k].retryCount == old(infos[k].retryCount)
  {
    crash := BeginFile(infos, i, resumed, now);
    if crash.None? { crash := SetOne(infos, i, Complete, None, now); }
  }

  /** The loop over the files sent whole, from the one numbered `first` on. */
  method SendWhole(infos: seq<TransferInfo>, s: Session, first: nat, now: real) returns (crash: Option<Crash>)
    requires Distinct(infos) && Possible(s, |infos|) && first <= s.done
    modifies infos
    ensures SendFiles(old(Statuses(infos)), s, first)
            == if crash.Some? then Flow(Statuses(infos), crash) else SendFiles(Statuses(infos), s, s.done)
    ensures forall k :: 0 <= k < |infos| ==> infos[k].retryCount == old(infos[k].retryCount)
  {
    ghost var ss := Statuses(infos);
    ghost var whole := SendFiles(ss, s, first);
    var i := first;
    while i < s.done
      invariant first <= i <= s.done && Statuses(infos) == ss && whole == SendFiles(ss, s, i)
      invariant forall k :: 0 <= k < |infos| ==> infos[k].retryCount == old(infos[k].retryCount)
    {
      SendFilesStep(ss, s, i);
      crash := SendFile(infos, i, s.resumed[i], now);
      if crash.Some? { return; }
      ss := Statuses(infos);
      i := i + 1;
    }
    crash := None;
  }

  /** The files sent whole, and the one the session ended in. */
  method SendFrom(infos: seq<TransferInfo>, s: Session, first: nat, now: real) returns (crash: Option<Crash>)
    requires Distinct(infos) && Possible(s, |infos|) && first <= s.done
    modifies infos
    ensures Flow(Statuses(infos), crash) == SendFiles(old(Statuses(infos)), s, first)
    ensures forall k :: 0 <= k < |infos| ==> infos[k].retryCount == old(infos[k].retryCount)
  {
    crash := SendWhole(infos, s, first, now);
    if crash.None? && s.begun { crash := BeginFile(infos, s.done, s.resumed[s.done], now); }
  }

  /** _send_session as far as it touches the statuses. */
  method SendSession(infos: seq<TransferInfo>, s: Session, now: real) returns (crash: Option<Crash>)
    requires Distinct(infos) && Possible(s, |infos|)
    modifies infos
    ensures Flow(Statuses(infos), crash) == RunSession(old(Statuses(infos)), s)
    ensures forall k :: 0 <= k < |infos| ==> infos[k].retryCount == old(infos[k].retryCount)
  {
    if !s.accepted { return None; }
    crash := Accept(infos, now);
    if crash.None? { crash := SendFrom(infos, s, 0, now); }
  }

  method CountAttempt(infos: seq<TransferInfo>, i: nat, attempt: nat)
    requires Distinct(infos) && i < |infos|
    modifies infos
    ensures Statuses(infos) == old(Statuses(infos)) && infos[i].retryCount == attempt
    ensures forall k :: 0 <= k < |infos| && k != i ==> infos[k].retryCount == old(infos[k].retryCount)
  {
    infos[i].retryCount := attempt;
  }

  /** The top of a retry: count it, then RESUMING for every live file. */
  method Resume(infos: seq<TransferInfo>, attempt: nat, now: real) returns (crash: Option<Crash>)
    requires Distinct(infos)
    modifies infos
    ensures Flow(Statuses(infos), crash) == AskLive(old(Statuses(infos)), Resuming, 0)
    ensures crash.None? ==> forall k :: 0 <= k < |infos| ==> infos[k].retryCount == attempt
  {
    ghost var ss := Statuses(infos);
    ghost var whole := AskLive(ss, Resuming, 0);
    var i := 0;
    while i < |infos|
      invariant i <= |infos| && Statuses(infos) == ss && whole == AskLive(ss, Resuming, i)
      invariant forall k :: 0 <= k < i ==> infos[k].retryCount == attempt
    {
      CountAttempt(infos, i, attempt);
      if !IsTerminal(infos[i].status) {
        crash := SetOne(infos, i, Resuming, None, now);
        if crash.Some? { return; }
      }
      ss := Statuses(infos);
      i := i + 1;
    }
    crash := None;
  }

  function Reason(failure: Failure, attempt: nat): string {
    match failure
    case RejectedByPeer => "Transfer rejected by peer."
    case NoApproval => "Peer did not respond to transfer request."
    case CancelledByUser => "Cancelled by user"
    case AuthOrProtocol => "Transfer rejected."
    case BadTag => "Cryptographic authentication failed."
    case Network => if attempt == MAX_RETRIES then "Unable to connect to peer." else "Connection interrupted"
  }

  /** Every file that is not COMPLETE says why. */
  ghost predicate ErrorIs(infos: seq<TransferInfo>, reason: string)
    reads infos
  {
    forall k :: 0 <= k < |infos| && !infos[k].status.Complete? ==> infos[k].error == Some(reason)
  }

  /** What a handler does: every live file gets the status and the text of this failure. */
  method Handle(infos: seq<TransferInfo>, failure: Failure, attempt: nat, now: real) returns (crash: Option<Crash>)
    requires Distinct(infos)
    modifies infos
    ensures Flow(Statuses(infos), crash) == AskLive(old(Statuses(infos)), HandlerTarget(failure, attempt), 0)
    ensures crash.None? && Running(old(Statuses(infos))) ==> ErrorIs(infos, Reason(failure, attempt))
    ensures forall k :: 0 <= k < |infos| ==> infos[k].retryCount == old(infos[k].retryCount)
  {
    crash := SetLive(infos, HandlerTarget(failure, attempt), Some(Reason(failure, attempt)), now);
  }

  /** One round of the retry loop; None when the loop goes on. */
  method Attempt(infos: seq<TransferInfo>, round: Round, attempt: nat, now: real) returns (end: Option<End>, ran: bool)
    requires Distinct(infos) && Possible(round.session, |infos|)
    modifies infos
    ensures end.None? ==> ran
    ensures OneRound(old(Statuses(infos)), round, attempt)
            == if end.None? then GoesOn(Statuses(infos))
               else Ends(Outcome(Statuses(infos), end.value, if ran then attempt + 1 else attempt))
    ensures !ran && (end.Some? ==> !end.value.Aborted?) ==> forall k :: 0 <= k < |infos| ==>
              infos[k].retryCount == old(infos[k].retryCount)
    ensures ran && attempt > 0 ==> forall k :: 0 <= k < |infos| ==> infos[k].retryCount == attempt
    ensures ran && attempt == 0 ==> forall k :: 0 <= k < |infos| ==> infos[k].retryCount == old(infos[k].retryCount)
  {
    var crash: Option<Crash> := None;
    if round.cancelled {
      crash := Handle(infos, CancelledByUser, attempt, now);
      return Some(if crash.Some? then Aborted(crash.value) else Stopped(CancelledByUser)), false;
    }
    if attempt > 0 {
      crash := Resume(infos, attempt, now);
      if crash.Some? { return Some(Aborted(crash.value)), false; }
    }
    crash := SendSession(infos, round.session, now);
    if crash.Some? { return Some(Aborted(crash.value)), true; }
    if round.session.failure.None? { return Some(AllSent), true; }
    var failure := round.session.failure.value;
    crash := Handle(infos, failure, attempt, now);
    if crash.Some? { return Some(Aborted(crash.value)), true; }
    return if failure.Network? then None else Some(Stopped(failure)), true;
  }

  /** The retry loop from attempt `first` on. */
  method RetryLoop(infos: seq<TransferInfo>, world: seq<Round>, first: nat, now: real) returns (end: End, sessions: nat)
    requires Distinct(infos) && PossibleWorld(world, |infos|) && first <= MAX_RETRIES
    requires forall i :: 0 <= i < |infos| ==> infos[i].retryCount == Max(first - 1, 0)
    modifies infos
    ensures Outcome(Statuses(infos), end, sessions) == Work(old(Statuses(infos)), world, first)
    ensures sessions > 0 && !end.Aborted? ==> forall k :: 0 <= k < |infos| ==> infos[k].retryCount == sessions - 1
  {
    ghost var whole := Work(Statuses(infos), world, first);
    var attempt := first;
    while attempt < MAX_RETRIES + 1
      invariant attempt <= MAX_RETRIES + 1
      invariant forall k :: 0 <= k < |infos| ==> infos[k].retryCount == Max(attempt - 1, 0)
      invariant attempt <= MAX_RETRIES ==> whole == Work(Statuses(infos), world, attempt)
      invariant attempt == MAX_RETRIES + 1 ==> whole == Outcome(Statuses(infos), GivenUp, attempt)
    {
      var stop, ran := Attempt(infos, world[attempt], attempt, now);
      if stop.Some? { return stop.value, if ran then attempt + 1 else attempt; }
      attempt := attempt + 1;
    }
    return GivenUp, attempt;
  }

  /** The worker, over records created in PENDING_APPROVAL. */
  method BatchWorker(infos: seq<TransferInfo>, world: seq<Round>, now: real) returns (end: End, sessions: nat)
    requires Distinct(infos) && PossibleWorld(world, |infos|)
    requires forall i :: 0 <= i < |infos| ==> infos[i].status.PendingApproval? && infos[i].retryCount == 0
    modifies infos
    ensures Outcome(Statuses(infos), end, sessions) == Work(Offered(|infos|), world, 0)
    ensures AsPredicted(Outcome(Statuses(infos), end, sessions), Doom(world, |infos|, 0, 0))
    ensures var o := Outcome(Statuses(infos), end, sessions); EndsAs(o) && EndsOn(o, world)
    ensures sessions > 0 && !end.Aborted? ==> forall k :: 0 <= k < |infos| ==> infos[k].retryCount == sessions - 1
  {
    assert Statuses(infos) == Offered(|infos|);
    WorkerCharacterised(|infos|, world);
    WorkerEndsAs(|infos|, world);
    end, sessions := RetryLoop(infos, world, 0, now);
  }
}
