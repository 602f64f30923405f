/** The approval inbox (core/inbox.py): one lock section per operation, any interleaving of them.
    Event objects are numbered in order of creation. */
module Inbox {
  import opened Common
  import opened Protocol

  datatype Verdict = PendingApproval | Accepted | Rejected | Expired | Cancelled

  /** An authenticated offer as it reaches the inbox. */
  datatype Arrival = Arrival(offer: Offer, peerDeviceId: string, receivedAt: real)

  datatype Request = Request(arrival: Arrival, status: Verdict, reason: Option<string>)

  datatype Entry = Entry(request: Request, event: nat)

  /** `requested` and `decided` are the on_request and on_decision calls owed, each with the number of
      the event created for that publication. */
  datatype State = State(entries: map<string, Entry>, events: seq<bool>,
                         requested: seq<(nat, Request)>, decided: seq<(nat, Request)>)

  const EMPTY := State(map[], [], [], [])

  datatype PublishOutcome = Published | Resumed | MetadataChanged | AlreadyExists | Full

  function PendingIds(entries: map<string, Entry>): set<string> {
    set id | id in entries && entries[id].request.status.PendingApproval?
  }

  predicate SameOffer(a: Arrival, b: Arrival) {
    && a.peerDeviceId == b.peerDeviceId && a.offer.files == b.offer.files
    && a.offer.totalSize == b.offer.totalSize && a.offer.message == b.offer.message
  }

  function PublishVerdict(s: State, a: Arrival, max: nat): PublishOutcome {
    if a.offer.transferId in s.entries then
      var prior := s.entries[a.offer.transferId].request;
      if !SameOffer(prior.arrival, a) then MetadataChanged
      else if prior.status.Accepted? then Resumed
      else AlreadyExists
    else if |PendingIds(s.entries)| >= max then Full
    else Published
  }

  function Publish(s: State, a: Arrival, max: nat): State {
    var k := |s.events|;
    match PublishVerdict(s, a, max)
    case Published =>
      var request := Request(a, PendingApproval, None);
      s.(entries := s.entries[a.offer.transferId := Entry(request, k)], events := s.events + [false],
         requested := s.requested + [(k, request)])
    case Resumed =>
      s.(entries := s.entries[a.offer.transferId := Entry(Request(a, Accepted, None), k)], events := s.events + [true])
    case MetadataChanged => s
    case AlreadyExists => s
    case Full => s
  }

  predicate Decidable(s: State, id: string) { id in s.entries && s.entries[id].request.status.PendingApproval? }

  function Decide(s: State, id: string, verdict: Verdict, reason: Option<string>): State
    requires EventsNumbered(s)
  {
    if !Decidable(s, id) then s
    else
      var k := s.entries[id].event;
      var request := s.entries[id].request.(status := verdict, reason := reason);
      s.(entries := s.entries[id := Entry(request, k)], events := s.events[k := true],
         decided := s.decided + [(k, request)])
  }

  predicate Kept(entry: Entry, cutoff: real) {
    entry.request.status.PendingApproval? || entry.request.arrival.receivedAt >= cutoff
  }

  function Prune(s: State, cutoff: real): State {
    s.(entries := map id | id in s.entries && Kept(s.entries[id], cutoff) :: s.entries[id])
  }

  predicate EventsNumbered(s: State) { forall id :: id in s.entries ==> s.entries[id].event < |s.events| }

  // ---- the manager

  class IncomingRequestManager {
    const maxPending: nat
    var entries: map<string, Entry>
    var events: seq<bool>
    var requested: seq<(nat, Request)>
    var decided: seq<(nat, Request)>

    ghost function Value(): State
      reads this
    {
      State(entries, events, requested, decided)
    }

    ghost predicate Valid()
      reads this
    {
      EventsNumbered(Value())
    }

    constructor (maxPending: nat)
      requires maxPending > 0
      ensures Valid() && Value() == EMPTY && this.maxPending == maxPending
    {
      this.maxPending, entries, events, requested, decided := maxPending, map[], [], [], [];
    }

    method CountPending() returns (n: nat)
      ensures n == |PendingIds(entries)|
    {
      n := |set id | id in entries && entries[id].request.status.PendingApproval?|;
    }

    method PublishOffer(a: Arrival) returns (outcome: PublishOutcome)
      requires Valid()
      modifies this
      ensures Valid() && outcome == PublishVerdict(old(Value()), a, maxPending)
      ensures Value() == Publish(old(Value()), a, maxPending)
      ensures OutcomeMeans(old(Value()), a, maxPending, outcome) && PublishedAs(old(Value()), Value(), a, outcome)
    {
      PublishMeaning(Value(), a, maxPending);
      if a.offer.transferId in entries {
        var prior := entries[a.offer.transferId].request;
        if !SameOffer(prior.arrival, a) { return MetadataChanged; }
        if prior.status.Accepted? {
          entries := entries[a.offer.transferId := Entry(Request(a, Accepted, None), |events|)];
          events := events + [true];
          return Resumed;
        }
        return AlreadyExists;
      }
      var pending := CountPending();
      if pending >= maxPending { return Full; }
      var request := Request(a, PendingApproval, None);
      requested := requested + [(|events|, request)];
      entries := entries[a.offer.transferId := Entry(request, |events|)];
      events := events + [false];
      return Published;
    }

    method DecideRequest(id: string, verdict: Verdict, reason: Option<string>) returns (ok: bool)
      requires Valid()
      modifies this
      ensures Valid() && ok == Decidable(old(Value()), id)
      ensures Value() == Decide(old(Value()), id, verdict, reason)
      ensures if ok then DecidedAs(old(Value()), Value(), id, verdict, reason) else Value() == old(Value())
    {
      DecisionIsRecorded(Value(), id, verdict, reason);
      if id !in entries || !entries[id].request.status.PendingApproval? { return false; }
      var request := entries[id].request.(status := verdict, reason := reason);
      var k := entries[id].event;
      entries := entries[id := Entry(request, k)];
      events := events[k := true];
      decided := decided + [(k, request)];
      return true;
    }

    /** What is still pending stays, with its event; what goes was decided and is old. */
    method PruneOld(cutoff: real)
      requires Valid()
      modifies this`entries
      ensures Valid() && PendingIds(entries) == PendingIds(old(entries))
      ensures forall id :: id in entries ==> id in old(entries) && entries[id] == old(entries)[id]
      ensures forall id :: id in old(entries) && id !in entries ==>
                !old(entries)[id].request.status.PendingApproval?
                && old(entries)[id].request.arrival.receivedAt < cutoff
      ensures forall id :: id in entries ==>
                entries[id].request.status.PendingApproval? || entries[id].request.arrival.receivedAt >= cutoff
      ensures Inv(old(Value()), maxPending) ==> Inv(Value(), maxPending)
      ensures Value() == Prune(old(Value()), cutoff)
    {
      if Inv(Value(), maxPending) { StepKeepsInv(Value(), Pruning(cutoff), maxPending); }
      entries := map id | id in entries && Kept(entries[id], cutoff) :: entries[id];
    }

    method CancelOne(id: string, reason: Option<string>, ghost was: map<string, Entry>, ghost done: set<string>)
      requires Valid() && Inv(Value(), maxPending) && id in PendingIds(entries)
      requires CancelledAs(was, entries, done, reason) && id !in done
      modifies this
      ensures Valid() && Inv(Value(), maxPending) && PendingIds(entries) == PendingIds(old(entries)) - {id}
      ensures |decided| == |old(decided)| + 1 && CancelledAs(was, entries, done + {id}, reason)
    {
      StepKeepsInv(Value(), Deciding(id, Cancelled, reason), maxPending);
      DecideRemoves(Value(), id, Cancelled, reason);
      var ok := DecideRequest(id, Cancelled, reason);
    }

    /** Shutdown, when nothing else interleaves: what was pending is cancelled for this reason, nothing else
        changes, and every event is set. */
    method CancelAll(reason: Option<string>)
      requires Valid() && Inv(Value(), maxPending)
      modifies this
      ensures Valid() && Inv(Value(), maxPending)
      ensures PendingIds(entries) == {} && forall k :: 0 <= k < |events| ==> events[k]
      ensures |decided| == |old(decided)| + |old(PendingIds(entries))|
      ensures CancelledAs(old(entries), entries, old(PendingIds(entries)), reason)
    {
      ghost var was, done := entries, {};
      var pending := set id | id in entries && entries[id].request.status.PendingApproval?;
      while pending != {}
        invariant Valid() && Inv(Value(), maxPending) && pending == PendingIds(entries)
        invariant |decided| + |pending| == |old(decided)| + |PendingIds(was)|
        invariant done + pending == PendingIds(was) && done !! pending && CancelledAs(was, entries, done, reason)
        decreases |pending|
      {
        var id :| id in pending;
        CancelOne(id, reason, was, done);
        MoveOver(done, pending, id);
        pending, done := pending - {id}, done + {id};
      }
      assert done == PendingIds(was);
      NothingPending(Value());
    }
  }

  lemma MoveOver(done: set<string>, pending: set<string>, id: string)
    requires id in pending
    ensures done + {id} + (pending - {id}) == done + pending
  {
  }

  // ---- what one operation does

  /** What the five answers to an offer mean, in terms of the entry under its ID and the pending ones. */
  predicate OutcomeMeans(s: State, a: Arrival, max: nat, outcome: PublishOutcome) {
    var id := a.offer.transferId;
    if id !in s.entries then
      outcome == if |PendingIds(s.entries)| < max then Published else Full
    else
      var was := s.entries[id].request;
      if || was.arrival.peerDeviceId != a.peerDeviceId || was.arrival.offer.files != a.offer.files
         || was.arrival.offer.totalSize != a.offer.totalSize || was.arrival.offer.message != a.offer.message
      then outcome.MetadataChanged?
      else outcome == if was.status.Accepted? then Resumed else AlreadyExists
  }

  /** No other entry, no earlier event and no decision changes; the queue and its callbacks grow by a
      pending request when it is new, and by an accepted one nobody is asked about when it is resumed. */
  predicate PublishedAs(s: State, s': State, a: Arrival, outcome: PublishOutcome) {
    var id, k := a.offer.transferId, |s.events|;
    if !outcome.Published? && !outcome.Resumed? then s' == s
    else
      var status := if outcome.Published? then PendingApproval else Accepted;
      && s'.entries.Keys == s.entries.Keys + {id} && s'.entries[id] == Entry(Request(a, status, None), k)
      && (forall other :: other in s.entries && other != id ==> s'.entries[other] == s.entries[other])
      && s'.events == s.events + [outcome.Resumed?] && s'.decided == s.decided
      && s'.requested == if outcome.Published? then s.requested + [(k, s'.entries[id].request)] else s.requested
  }

  lemma PublishMeaning(s: State, a: Arrival, max: nat)
    ensures var outcome := PublishVerdict(s, a, max);
            OutcomeMeans(s, a, max, outcome) && PublishedAs(s, Publish(s, a, max), a, outcome)
  {
  }

  /** The entry is the old request with exactly this verdict and reason, the last on_decision carries it,
      its event is set, and every other entry, event and call is as it was. */
  predicate DecidedAs(s: State, s': State, id: string, verdict: Verdict, reason: Option<string>)
    requires EventsNumbered(s) && id in s.entries
  {
    var k, arrival := s.entries[id].event, s.entries[id].request.arrival;
    && s'.entries.Keys == s.entries.Keys && s'.entries[id] == Entry(Request(arrival, verdict, reason), k)
    && (forall other :: other in s.entries && other != id ==> s'.entries[other] == s.entries[other])
    && s'.decided == s.decided + [(k, Request(arrival, verdict, reason))] && s'.requested == s.requested
    && |s'.events| == |s.events| && s'.events[k]
    && forall j :: 0 <= j < |s.events| && j != k ==> s'.events[j] == s.events[j]
  }

  lemma DecisionIsRecorded(s: State, id: string, verdict: Verdict, reason: Option<string>)
    requires EventsNumbered(s)
    ensures var s' := Decide(s, id, verdict, reason);
            if Decidable(s, id) then DecidedAs(s, s', id, verdict, reason) else s' == s
  {
  }

  /** These entries, and no others, have become CANCELLED for this reason. */
  predicate CancelledAs(was: map<string, Entry>, now: map<string, Entry>, ids: set<string>, reason: Option<string>) {
    && now.Keys == was.Keys
    && forall id :: id in was ==>
         now[id] == if id in ids then Entry(Request(was[id].request.arrival, Cancelled, reason), was[id].event)
                    else was[id]
  }

  // ---- every interleaving

  datatype Op =
    | Publishing(arrival: Arrival)
    | Deciding(id: string, verdict: Verdict, reason: Option<string>)
    | Pruning(cutoff: real)

  function Apply(s: State, op: Op, max: nat): State
    requires EventsNumbered(s)
  {
    match op
    case Publishing(a) => Publish(s, a, max)
    case Deciding(id, verdict, reason) => if verdict.PendingApproval? then s else Decide(s, id, verdict, reason)
    case Pruning(cutoff) => Prune(s, cutoff)
  }

  ghost predicate Current(entries: map<string, Entry>, k: nat) { exists id :: id in entries && entries[id].event == k }

  /** An unset event is the current event of a pending entry, and the other way round. */
  ghost predicate EventsTell(s: State)
    requires EventsNumbered(s)
  {
    && (forall id :: id in s.entries ==>
          (s.events[s.entries[id].event] <==> !s.entries[id].request.status.PendingApproval?))
    && (forall k :: 0 <= k < |s.events| && !s.events[k] ==> Current(s.entries, k))
    && (forall a, b :: a in s.entries && b in s.entries && s.entries[a].event == s.entries[b].event ==> a == b)
  }

  /** A publication is decided at most once, and a decision stands as long as the entry does. */
  ghost predicate DecidedOnce(s: State) {
    && (forall i, j :: 0 <= i < j < |s.decided| ==> s.decided[i].0 != s.decided[j].0)
    && (forall i :: 0 <= i < |s.decided| ==> s.decided[i].0 < |s.events| && s.events[s.decided[i].0])
    && (forall i, id :: 0 <= i < |s.decided| && id in s.entries && s.entries[id].event == s.decided[i].0
          ==> s.entries[id].request == s.decided[i].1)
  }

  ghost predicate Inv(s: State, max: nat) {
    && EventsNumbered(s) && EventsTell(s) && DecidedOnce(s)
    && |PendingIds(s.entries)| <= max
    && |s.requested| == |s.decided| + |PendingIds(s.entries)|
  }

  lemma DecideRemoves(s: State, id: string, verdict: Verdict, reason: Option<string>)
    requires EventsNumbered(s) && Decidable(s, id) && !verdict.PendingApproval?
    ensures PendingIds(Decide(s, id, verdict, reason).entries) == PendingIds(s.entries) - {id}
  {
  }

  ghost predicate Keeps(s: State, s': State, id: string) {
    id in s.entries && id in s'.entries && s'.entries[id].event == s.entries[id].event
  }

  lemma UnsetIsPending(s: State, k: nat) returns (id: string)
    requires EventsNumbered(s) && EventsTell(s) && k < |s.events| && !s.events[k]
    ensures id in PendingIds(s.entries) && s.entries[id].event == k
  {
    assert Current(s.entries, k);
    id :| id in s.entries && s.entries[id].event == k;
  }

  lemma NothingPending(s: State)
    requires EventsNumbered(s) && EventsTell(s) && PendingIds(s.entries) == {}
    ensures forall k :: 0 <= k < |s.events| ==> s.events[k]
  {
    forall k | 0 <= k < |s.events| ensures s.events[k] {
      if !s.events[k] { var id := UnsetIsPending(s, k); }
    }
  }

  /** Only a decided entry may be replaced or dropped. */
  lemma UnsetStayCurrent(s: State, s': State)
    requires EventsNumbered(s) && EventsTell(s) && EventsNumbered(s') && |s.events| <= |s'.events|
    requires forall k :: 0 <= k < |s.events| && !s'.events[k] ==> !s.events[k]
    requires forall k :: |s.events| <= k < |s'.events| && !s'.events[k] ==> Current(s'.entries, k)
    requires forall id :: Decidable(s, id) && !s'.events[s.entries[id].event] ==> Keeps(s, s', id)
    ensures forall k :: 0 <= k < |s'.events| && !s'.events[k] ==> Current(s'.entries, k)
  {
    forall k | 0 <= k < |s.events| && !s'.events[k] ensures Current(s'.entries, k) {
      var id := UnsetIsPending(s, k);
      assert Decidable(s, id) && Keeps(s, s', id);
    }
  }

  lemma PublishKeepsTelling(s: State, a: Arrival, max: nat)
    requires EventsNumbered(s) && EventsTell(s)
    ensures EventsNumbered(Publish(s, a, max)) && EventsTell(Publish(s, a, max))
  {
    var id := a.offer.transferId;
    if PublishVerdict(s, a, max).Published? {
      AddKeepsTelling(s, id, Request(a, PendingApproval, None), Publish(s, a, max).requested);
    } else if PublishVerdict(s, a, max).Resumed? {
      AddKeepsTelling(s, id, Request(a, Accepted, None), s.requested);
    }
  }

  /** A new entry with a new event, for an ID that is new or already decided. */
  lemma AddKeepsTelling(s: State, id: string, request: Request, asked: seq<(nat, Request)>)
    requires EventsNumbered(s) && EventsTell(s) && !Decidable(s, id)
    ensures var k, decided := |s.events|, !request.status.PendingApproval?;
            var s' := State(s.entries[id := Entry(request, k)], s.events + [decided], asked, s.decided);
            EventsNumbered(s') && EventsTell(s')
  {
    var k := |s.events|;
    var s' :=
      State(s.entries[id := Entry(request, k)], s.events + [!request.status.PendingApproval?], asked, s.decided);
    assert s'.entries[id].event == k;
    UnsetStayCurrent(s, s');
  }

  lemma PublishKeepsDecidedOnce(s: State, a: Arrival, max: nat)
    requires EventsNumbered(s) && DecidedOnce(s)
    ensures DecidedOnce(Publish(s, a, max))
  {
  }

  lemma PublishCounts(s: State, a: Arrival, max: nat)
    ensures var s' := Publish(s, a, max);
            && s'.decided == s.decided
            && (|PendingIds(s.entries)| <= max ==> |PendingIds(s'.entries)| <= max)
            && |s'.requested| - |PendingIds(s'.entries)| == |s.requested| - |PendingIds(s.entries)|
  {
    var s', id := Publish(s, a, max), a.offer.transferId;
    if PublishVerdict(s, a, max).Published? {
      assert PendingIds(s'.entries) == PendingIds(s.entries) + {id};
    } else {
      assert PendingIds(s'.entries) == PendingIds(s.entries);
    }
  }

  lemma PublishKeepsInv(s: State, a: Arrival, max: nat)
    requires Inv(s, max)
    ensures Inv(Publish(s, a, max), max)
  {
    PublishKeepsTelling(s, a, max);
    PublishKeepsDecidedOnce(s, a, max);
    PublishCounts(s, a, max);
  }

  lemma DecideKeepsTelling(s: State, id: string, verdict: Verdict, reason: Option<string>)
    requires EventsNumbered(s) && EventsTell(s) && Decidable(s, id) && !verdict.PendingApproval?
    ensures EventsNumbered(Decide(s, id, verdict, reason)) && EventsTell(Decide(s, id, verdict, reason))
  {
    UnsetStayCurrent(s, Decide(s, id, verdict, reason));
  }

  lemma DecideKeepsDecidedOnce(s: State, id: string, verdict: Verdict, reason: Option<string>)
    requires EventsNumbered(s) && EventsTell(s) && DecidedOnce(s) && Decidable(s, id) && !verdict.PendingApproval?
    ensures DecidedOnce(Decide(s, id, verdict, reason))
  {
    assert !s.events[s.entries[id].event];
  }

  lemma DecideKeepsInv(s: State, id: string, verdict: Verdict, reason: Option<string>, max: nat)
    requires Inv(s, max) && !verdict.PendingApproval?
    ensures Inv(Decide(s, id, verdict, reason), max)
  {
    if Decidable(s, id) {
      DecideRemoves(s, id, verdict, reason);
      DecideKeepsTelling(s, id, verdict, reason);
      DecideKeepsDecidedOnce(s, id, verdict, reason);
    }
  }

  lemma StepKeepsInv(s: State, op: Op, max: nat)
    requires Inv(s, max)
    ensures Inv(Apply(s, op, max), max)
  {
    match op
    case Publishing(a) => PublishKeepsInv(s, a, max);
    case Deciding(id, verdict, reason) => if !verdict.PendingApproval? { DecideKeepsInv(s, id, verdict, reason, max); }
    case Pruning(cutoff) =>
      assert PendingIds(Prune(s, cutoff).entries) == PendingIds(s.entries);
      UnsetStayCurrent(s, Prune(s, cutoff));
  }

  function Run(s: State, ops: seq<Op>, max: nat): (r: State)
    requires EventsNumbered(s)
    ensures EventsNumbered(r)
    decreases |ops|
  {
    if ops == [] then s
    else
      var next := Apply(s, ops[0], max);
      Run(next, ops[1..], max)
  }

  lemma DecisionsStand(s: State, op: Op, max: nat)
    requires EventsNumbered(s)
    ensures s.decided <= Apply(s, op, max).decided
  {
  }

  /** Over every interleaving: the queue bound holds; an event is set exactly when its request is
      decided (or its entry was replaced or pruned); no publication is decided twice and no decision
      flips; on_request calls minus on_decision calls is the number of pending requests. */
  lemma {:induction false} InboxSafety(s: State, ops: seq<Op>, max: nat)
    requires Inv(s, max)
    ensures Inv(Run(s, ops, max), max)
    ensures s.decided <= Run(s, ops, max).decided
    decreases |ops|
  {
    if ops != [] {
      StepKeepsInv(s, ops[0], max);
      DecisionsStand(s, ops[0], max);
      InboxSafety(Apply(s, ops[0], max), ops[1..], max);
    }
  }

  // ---- the calls made outside the lock

  /** A thread that has released the lock owes the call for what it did, and makes it before it takes the
      lock again; so many calls have been made so far. */
  datatype Calls = Calls(state: State, asked: nat, answered: nat)

  datatype CallStep = Lock(op: Op) | CallRequest | CallDecision

  function RequestsOwed(c: Calls): int { |c.state.requested| - c.asked }

  function DecisionsOwed(c: Calls): int { |c.state.decided| - c.answered }

  /** With so many threads, one of them takes the lock only while not all owe a call. */
  function Call(c: Calls, step: CallStep, threads: nat, max: nat): (next: Calls)
    requires EventsNumbered(c.state)
    ensures EventsNumbered(next.state)
  {
    match step
    case Lock(op) =>
      if RequestsOwed(c) + DecisionsOwed(c) < threads then c.(state := Apply(c.state, op, max)) else c
    case CallRequest => if RequestsOwed(c) > 0 then c.(asked := c.asked + 1) else c
    case CallDecision => if DecisionsOwed(c) > 0 then c.(answered := c.answered + 1) else c
  }

  function CallAll(c: Calls, steps: seq<CallStep>, threads: nat, max: nat): (end: Calls)
    requires EventsNumbered(c.state)
    ensures EventsNumbered(end.state)
    decreases |steps|
  {
    if steps == [] then c else CallAll(Call(c, steps[0], threads, max), steps[1..], threads, max)
  }

  predicate CallsOwed(c: Calls, threads: nat) {
    RequestsOwed(c) >= 0 && DecisionsOwed(c) >= 0 && RequestsOwed(c) + DecisionsOwed(c) <= threads
  }

  lemma {:induction false} CallsStayOwed(c: Calls, steps: seq<CallStep>, threads: nat, max: nat)
    requires Inv(c.state, max) && CallsOwed(c, threads)
    ensures var end := CallAll(c, steps, threads, max); Inv(end.state, max) && CallsOwed(end, threads)
    decreases |steps|
  {
    if steps != [] {
      if steps[0].Lock? {
        StepKeepsInv(c.state, steps[0].op, max);
        OneCallEach(c.state, steps[0].op, max);
      }
      CallsStayOwed(Call(c, steps[0], threads, max), steps[1..], threads, max);
    }
  }

  lemma OneCallEach(s: State, op: Op, max: nat)
    requires EventsNumbered(s)
    ensures var s' := Apply(s, op, max);
            && |s.requested| <= |s'.requested| && |s.decided| <= |s'.decided|
            && |s'.requested| + |s'.decided| <= |s.requested| + |s.decided| + 1
  {
  }

  /** Over every interleaving of lock sections and calls from an empty inbox: on_request calls minus
      on_decision calls is the number of pending requests, off by what threads still owe of either kind;
      so by no more than the number of threads, and not at all when nobody owes a call. */
  lemma CallsBalance(steps: seq<CallStep>, threads: nat, max: nat)
    ensures var end := CallAll(Calls(EMPTY, 0, 0), steps, threads, max);
            var pending := |PendingIds(end.state.entries)|;
            && end.asked - end.answered == pending + DecisionsOwed(end) - RequestsOwed(end)
            && pending - threads <= end.asked - end.answered <= pending + threads
  {
    CallsStayOwed(Calls(EMPTY, 0, 0), steps, threads, max);
  }

  // ---- shutting down while others act

  lemma {:induction false} SetStays(s: State, ops: seq<Op>, k: nat, max: nat)
    requires EventsNumbered(s) && k < |s.events| && s.events[k]
    ensures k < |Run(s, ops, max).events| && Run(s, ops, max).events[k]
    decreases |ops|
  {
    if ops != [] { SetStays(Apply(s, ops[0], max), ops[1..], k, max); }
  }

  /** The event is set, or it still belongs to the pending entry of this ID. */
  predicate SetOrCurrent(s: State, id: string, k: nat) {
    k < |s.events| && (!s.events[k] ==> Decidable(s, id) && s.entries[id].event == k)
  }

  predicate Cancels(op: Op, id: string) { op.Deciding? && op.id == id && op.verdict.Cancelled? }

  lemma StepTowardsSet(s: State, op: Op, id: string, k: nat, max: nat)
    requires EventsNumbered(s) && EventsTell(s) && SetOrCurrent(s, id, k)
    ensures SetOrCurrent(Apply(s, op, max), id, k)
    ensures Cancels(op, id) ==> Apply(s, op, max).events[k]
  {
  }

  lemma {:induction false} DecisionReaches(s: State, ops: seq<Op>, id: string, j: nat, k: nat, max: nat)
    requires Inv(s, max) && SetOrCurrent(s, id, k) && j < |ops| && Cancels(ops[j], id)
    ensures k < |Run(s, ops, max).events| && Run(s, ops, max).events[k]
    decreases |ops|
  {
    StepTowardsSet(s, ops[0], id, k, max);
    if j == 0 {
      SetStays(Apply(s, ops[0], max), ops[1..], k, max);
    } else {
      StepKeepsInv(s, ops[0], max);
      DecisionReaches(Apply(s, ops[0], max), ops[1..], id, j - 1, k, max);
    }
  }

  /** cancel_all releases the lock between its decisions. Whatever others do in between, everyone who
      waited on a request that was pending at its snapshot is woken once it has gone through them. */
  lemma CancelAllWakesEveryone(s: State, ops: seq<Op>, max: nat)
    requires Inv(s, max)
    requires forall id :: id in PendingIds(s.entries) ==> exists j :: 0 <= j < |ops| && Cancels(ops[j], id)
    ensures forall id :: id in PendingIds(s.entries) ==>
              s.entries[id].event < |Run(s, ops, max).events| && Run(s, ops, max).events[s.entries[id].event]
  {
    forall id | id in PendingIds(s.entries)
      ensures s.entries[id].event < |Run(s, ops, max).events| && Run(s, ops, max).events[s.entries[id].event]
    {
      var j :| 0 <= j < |ops| && Cancels(ops[j], id);
      DecisionReaches(s, ops, id, j, s.entries[id].event, max);
    }
  }

  // ---- waiting

  /** wait_for_decision between its lock sections: holding an event, then about to read the entry. */
  datatype Waiter =
    | Holding(id: string, event: nat) | Ready(id: string, event: nat) | Returned(request: Request) | Missing

  datatype World = World(state: State, waiters: seq<Waiter>)

  datatype Event = Act(op: Op) | Begin(id: string) | Woken(w: nat) | TimedOut(w: nat) | Fetch(w: nat)

  predicate Enabled(world: World, e: Event) {
    match e
    case Act(_) => true
    case Begin(_) => true
    case Woken(w) =>
      w < |world.waiters| && world.waiters[w].Holding?
      && (world.waiters[w].event < |world.state.events| ==> world.state.events[world.waiters[w].event])
    case TimedOut(w) => w < |world.waiters| && world.waiters[w].Holding?
    case Fetch(w) => w < |world.waiters| && world.waiters[w].Ready?
  }

  const TIMED_OUT: Option<string> := Some("Transfer request expired")

  function Step(world: World, e: Event, max: nat): (next: World)
    requires EventsNumbered(world.state) && Enabled(world, e)
    ensures EventsNumbered(next.state)
  {
    var s, ws := world.state, world.waiters;
    match e
    case Act(op) => world.(state := Apply(s, op, max))
    case Begin(id) => world.(waiters := ws + [if id in s.entries then Holding(id, s.entries[id].event) else Missing])
    case Woken(w) => world.(waiters := ws[w := Ready(ws[w].id, ws[w].event)])
    case TimedOut(w) => World(Decide(s, ws[w].id, Expired, TIMED_OUT), ws[w := Ready(ws[w].id, ws[w].event)])
    case Fetch(w) =>
      world.(waiters := ws[w := if ws[w].id in s.entries then Returned(s.entries[ws[w].id].request) else Missing])
  }

  /** A sleeping waiter sleeps on the event the next decision on its ID sets; past the wait, the event it
      held is set; and the entry under its ID is never older than that event. Pruning keeps this. */
  ghost predicate WaiterAwake(s: State, w: Waiter) {
    match w
    case Holding(id, k) =>
      && k < |s.events| && (!s.events[k] ==> id in s.entries && s.entries[id].event == k)
      && (id in s.entries ==> s.entries[id].event >= k)
    case Ready(id, k) => k < |s.events| && s.events[k] && (id in s.entries ==> s.entries[id].event >= k)
    case _ => true
  }

  ghost predicate AwakeInv(world: World, max: nat) {
    Inv(world.state, max) && forall w :: 0 <= w < |world.waiters| ==> WaiterAwake(world.state, world.waiters[w])
  }

  lemma ApplyKeepsAwake(s: State, op: Op, w: Waiter, max: nat)
    requires Inv(s, max) && WaiterAwake(s, w)
    ensures WaiterAwake(Apply(s, op, max), w)
  {
  }

  lemma StepKeepsAwake(world: World, e: Event, max: nat)
    requires AwakeInv(world, max) && Enabled(world, e)
    ensures AwakeInv(Step(world, e, max), max)
  {
    if e.Act? || e.TimedOut? {
      var op := if e.Act? then e.op else Deciding(world.waiters[e.w].id, Expired, TIMED_OUT);
      StepKeepsInv(world.state, op, max);
      forall w | 0 <= w < |world.waiters| ensures WaiterAwake(Apply(world.state, op, max), world.waiters[w]) {
        ApplyKeepsAwake(world.state, op, world.waiters[w], max);
      }
    }
  }

  ghost predicate Legal(world: World, events: seq<Event>, max: nat)
    requires EventsNumbered(world.state)
    decreases |events|
  {
    events == [] || (Enabled(world, events[0]) && Legal(Step(world, events[0], max), events[1..], max))
  }

  ghost function Final(world: World, events: seq<Event>, max: nat): (end: World)
    requires EventsNumbered(world.state) && Legal(world, events, max)
    ensures EventsNumbered(end.state)
    decreases |events|
  {
    if events == [] then world else Final(Step(world, events[0], max), events[1..], max)
  }

  lemma {:induction false} RunKeepsAwake(world: World, events: seq<Event>, max: nat)
    requires AwakeInv(world, max) && Legal(world, events, max)
    ensures AwakeInv(Final(world, events, max), max)
    decreases |events|
  {
    if events != [] {
      StepKeepsAwake(world, events[0], max);
      RunKeepsAwake(Step(world, events[0], max), events[1..], max);
    }
  }

  const IDLE := World(EMPTY, [])

  /** No lost wakeup, over every interleaving from an empty inbox, pruning included: whoever sleeps on a
      request that is not pending can wake, and a decision on it wakes everyone who still sleeps. */
  lemma NoLostWakeup(events: seq<Event>, max: nat, w: nat, verdict: Verdict, reason: Option<string>)
    requires Legal(IDLE, events, max) && !verdict.PendingApproval?
    requires var world := Final(IDLE, events, max); w < |world.waiters| && world.waiters[w].Holding?
    ensures var world := Final(IDLE, events, max);
            var id := world.waiters[w].id;
            && Inv(world.state, max)
            && (!Decidable(world.state, id) ==> Enabled(world, Woken(w)))
            && Enabled(Step(world, Act(Deciding(id, verdict, reason)), max), Woken(w))
  {
    RunKeepsAwake(IDLE, events, max);
    var world := Final(IDLE, events, max);
    assert WaiterAwake(world.state, world.waiters[w]);
  }

  /** Over every interleaving from an empty inbox: wait_for_decision returns a pending request exactly
      when the entry it reads is pending and a later publication than the one it waited for. */
  lemma PendingMeansReplaced(events: seq<Event>, max: nat, w: nat)
    requires Legal(IDLE, events, max) && Enabled(Final(IDLE, events, max), Fetch(w))
    ensures var world := Final(IDLE, events, max);
            var held, after := world.waiters[w], Step(world, Fetch(w), max).waiters[w];
            (after.Returned? && after.request.status.PendingApproval?)
            <==> Decidable(world.state, held.id) && world.state.entries[held.id].event > held.event
  {
    RunKeepsAwake(IDLE, events, max);
    var world := Final(IDLE, events, max);
    assert WaiterAwake(world.state, world.waiters[w]);
  }

  predicate Settled(s: State, id: string) { id in s.entries && !s.entries[id].request.status.PendingApproval? }

  /** While nothing is pruned an entry stays, so a waiter past its wait finds a decision. */
  ghost predicate WaiterOk(s: State, w: Waiter) {
    match w
    case Holding(id, k) =>
      id in s.entries && k < |s.events| && (if Settled(s, id) then s.events[k] else s.entries[id].event == k)
    case Ready(id, _) => Settled(s, id)
    case Returned(r) => !r.status.PendingApproval?
    case Missing => true
  }

  ghost predicate WaitInv(world: World, max: nat) {
    Inv(world.state, max) && forall w :: 0 <= w < |world.waiters| ==> WaiterOk(world.state, world.waiters[w])
  }

  lemma ApplyKeepsWaiter(s: State, op: Op, w: Waiter, max: nat)
    requires Inv(s, max) && WaiterOk(s, w) && !op.Pruning?
    ensures WaiterOk(Apply(s, op, max), w)
  {
  }

  lemma StepKeepsWait(world: World, e: Event, max: nat)
    requires WaitInv(world, max) && Enabled(world, e) && !(e.Act? && e.op.Pruning?)
    ensures WaitInv(Step(world, e, max), max)
    ensures e.Fetch? ==> Step(world, e, max).waiters[e.w].Returned?
  {
    if e.Act? || e.TimedOut? {
      var op := if e.Act? then e.op else Deciding(world.waiters[e.w].id, Expired, TIMED_OUT);
      StepKeepsInv(world.state, op, max);
      forall w | 0 <= w < |world.waiters| ensures WaiterOk(Apply(world.state, op, max), world.waiters[w]) {
        ApplyKeepsWaiter(world.state, op, world.waiters[w], max);
      }
    }
  }

  /** wait_for_decision never returns a pending request, and never loses its entry, over every
      interleaving in which nothing is pruned. */
  lemma {:induction false} WaitReturnsADecision(world: World, events: seq<Event>, max: nat)
    requires WaitInv(world, max) && Legal(world, events, max)
    requires forall i :: 0 <= i < |events| ==> !(events[i].Act? && events[i].op.Pruning?)
    ensures WaitInv(Final(world, events, max), max)
    decreases |events|
  {
    if events != [] {
      StepKeepsWait(world, events[0], max);
      WaitReturnsADecision(Step(world, events[0], max), events[1..], max);
    }
  }

  // ---- the verdict that was given

  /** The entry carries this verdict and reason. */
  predicate Decided(s: State, id: string, verdict: Verdict, reason: Option<string>) {
    id in s.entries && s.entries[id].request.status == verdict && s.entries[id].request.reason == reason
  }

  /** Still waiting for this ID, or returned with this verdict and reason. */
  predicate Learns(w: Waiter, id: string, verdict: Verdict, reason: Option<string>) {
    match w
    case Holding(x, _) => x == id
    case Ready(x, _) => x == id
    case Returned(r) => r.arrival.offer.transferId == id && r.status == verdict && r.reason == reason
    case Missing => false
  }

  predicate NoPrune(events: seq<Event>) {
    forall i :: 0 <= i < |events| ==> !(events[i].Act? && events[i].op.Pruning?)
  }

  ghost predicate UnderTheirIds(s: State) {
    forall id :: id in s.entries ==> s.entries[id].request.arrival.offer.transferId == id
  }

  lemma StepKeepsVerdict(world: World, e: Event, max: nat, w: nat, id: string, verdict: Verdict, reason: Option<string>)
    requires EventsNumbered(world.state) && Enabled(world, e) && !(e.Act? && e.op.Pruning?)
    requires !verdict.PendingApproval? && (verdict.Accepted? ==> reason.None?)
    requires Decided(world.state, id, verdict, reason) && UnderTheirIds(world.state)
    requires w < |world.waiters| && Learns(world.waiters[w], id, verdict, reason)
    ensures var next := Step(world, e, max);
            && Decided(next.state, id, verdict, reason) && UnderTheirIds(next.state)
            && w < |next.waiters| && Learns(next.waiters[w], id, verdict, reason)
  {
  }

  lemma {:induction false} RunKeepsVerdict(world: World, events: seq<Event>, max: nat, w: nat, id: string,
      verdict: Verdict, reason: Option<string>)
    requires EventsNumbered(world.state) && Legal(world, events, max) && NoPrune(events)
    requires !verdict.PendingApproval? && (verdict.Accepted? ==> reason.None?)
    requires Decided(world.state, id, verdict, reason) && UnderTheirIds(world.state)
    requires w < |world.waiters| && Learns(world.waiters[w], id, verdict, reason)
    ensures var end := Final(world, events, max);
            Decided(end.state, id, verdict, reason) && w < |end.waiters| && Learns(end.waiters[w], id, verdict, reason)
    decreases |events|
  {
    if events != [] {
      StepKeepsVerdict(world, events[0], max, w, id, verdict, reason);
      assert forall i :: 0 <= i < |events[1..]| ==> events[1..][i] == events[i + 1];
      RunKeepsVerdict(Step(world, events[0], max), events[1..], max, w, id, verdict, reason);
    }
  }

  lemma {:induction false} EntriesUnderTheirIds(world: World, events: seq<Event>, max: nat)
    requires EventsNumbered(world.state) && Legal(world, events, max) && UnderTheirIds(world.state)
    ensures UnderTheirIds(Final(world, events, max).state)
    decreases |events|
  {
    if events != [] { EntriesUnderTheirIds(Step(world, events[0], max), events[1..], max); }
  }

  /** Over every interleaving: once somebody decides a pending request, whoever was waiting for it, and
      whatever happens afterwards except pruning, is still waiting or returns exactly that verdict with that
      reason; an acceptance comes without one. */
  lemma WaiterLearnsTheVerdict(before: seq<Event>, after: seq<Event>, max: nat, w: nat, verdict: Verdict,
      reason: Option<string>)
    requires !verdict.PendingApproval? && (verdict.Accepted? ==> reason.None?)
    requires Legal(IDLE, before, max)
    requires var world := Final(IDLE, before, max);
             && w < |world.waiters| && (world.waiters[w].Holding? || world.waiters[w].Ready?)
             && Decidable(world.state, world.waiters[w].id)
             && Legal(Step(world, Act(Deciding(world.waiters[w].id, verdict, reason)), max), after, max)
    requires NoPrune(after)
    ensures var world := Final(IDLE, before, max);
            var id := world.waiters[w].id;
            var end := Final(Step(world, Act(Deciding(id, verdict, reason)), max), after, max);
            w < |end.waiters| && Learns(end.waiters[w], id, verdict, reason)
  {
    var world := Final(IDLE, before, max);
    var id := world.waiters[w].id;
    EntriesUnderTheirIds(IDLE, before, max);
    DecisionIsRecorded(world.state, id, verdict, reason);
    RunKeepsVerdict(Step(world, Act(Deciding(id, verdict, reason)), max), after, max, w, id, verdict, reason);
  }

  /** A waiter whose time is up expires the request if it is still pending, and changes nothing else. */
  lemma TimeoutExpires(world: World, w: nat, max: nat)
    requires EventsNumbered(world.state) && Enabled(world, TimedOut(w))
    ensures var id, s' := world.waiters[w].id, Step(world, TimedOut(w), max).state;
            if Decidable(world.state, id)
            then DecidedAs(world.state, s', id, Expired, Some("Transfer request expired"))
            else s' == world.state
  {
    DecisionIsRecorded(world.state, world.waiters[w].id, Expired, TIMED_OUT);
  }

  /** With pruning a pending request can be returned: decided, pruned and published again before the
      waiter reads the entry. */
  lemma PruneBreaksWait(a: Arrival)
    requires a.receivedAt < 1.0
    ensures var id := a.offer.transferId;
            var w1 := Step(World(EMPTY, []), Act(Publishing(a)), 1);
            var w2 := Step(w1, Begin(id), 1);
            var w3 := Step(w2, Act(Deciding(id, Rejected, None)), 1);
            Enabled(w3, Woken(0)) &&
            var w4 := Step(w3, Woken(0), 1);
            var w5 := Step(w4, Act(Pruning(1.0)), 1);
            var w6 := Step(w5, Act(Publishing(a)), 1);
            Enabled(w6, Fetch(0)) && Step(w6, Fetch(0), 1).waiters[0] == Returned(Request(a, PendingApproval, None))
  {
    var w5 := Prune(Decide(Publish(EMPTY, a, 1), a.offer.transferId, Rejected, None), 1.0);
    assert PendingIds(EMPTY.entries) == {} && PendingIds(w5.entries) == {};
  }
}
