/**
  Concurrency permits of the gRPC process: one limit for the process and one for each listener,
  each a counting semaphore. The protocol of concurrent calls is a state machine whose steps are
  the single semaphore operations; the admission loop and the permit are also given as methods.
 */
module RpcPermits {

  const MAXIMUM_PROCESS: nat := 12
  const MAXIMUM_PROTECTED: nat := 8
  const MAXIMUM_PUBLIC: nat := 4

  datatype Listener = Protected | Public

  datatype Limiter = Process | Own(listener: Listener)

  function Limit(limiter: Limiter): nat {
    match limiter
    case Process => MAXIMUM_PROCESS
    case Own(Protected) => MAXIMUM_PROTECTED
    case Own(Public) => MAXIMUM_PUBLIC
  }

  // ----- The protocol -----------------------------------------------------------------------

  /**
    Where a call stands: it holds a process token and asks its listener for one; it was refused by
    its listener and is about to give the process token back; it is admitted and holds a permit; its
    permit has given back the listener token and not yet the process token; or it is over.
   */
  datatype Phase = Entering | RollingBack | Admitted | Releasing | Refused | Finished

  datatype Call = Call(listener: Listener, phase: Phase)

  datatype System = System(tokens: map<Limiter, nat>, calls: map<int, Call>)

  predicate Holds(call: Call, limiter: Limiter) {
    match limiter
    case Process => HalfWay(call) || call.phase == Admitted
    case Own(listener) => call.listener == listener && call.phase == Admitted
  }

  /** Between two semaphore operations of one admission, rollback or release. */
  predicate HalfWay(call: Call) {
    call.phase == Entering || call.phase == RollingBack || call.phase == Releasing
  }

  function Tokens(s: System, limiter: Limiter): nat {
    if limiter in s.tokens then s.tokens[limiter] else 0
  }

  predicate Full(s: System, limiter: Limiter) {
    Tokens(s, limiter) >= Limit(limiter)
  }

  datatype Action =
    | AskProcess(id: int, listener: Listener)   // the first acquire of an admission
    | AskListener(id: int)                      // the second
    | RollBack(id: int)                         // the release after a refused second acquire
    | BeginRelease(id: int)                     // a handler's end, a failing tap or the deadline
    | EndRelease(id: int)

  function SetCall(s: System, id: int, phase: Phase): System
    requires id in s.calls
  {
    s.(calls := s.calls[id := s.calls[id].(phase := phase)])
  }

  function Put(s: System, limiter: Limiter): System {
    s.(tokens := s.tokens[limiter := Tokens(s, limiter) + 1])
  }

  function TakeBack(s: System, limiter: Limiter): System {
    s.(tokens := s.tokens[limiter := if Tokens(s, limiter) == 0 then 0 else Tokens(s, limiter) - 1])
  }

  predicate InPhase(s: System, id: int, phase: Phase) {
    id in s.calls && s.calls[id].phase == phase
  }

  /** One semaphore operation. A second release of a permit does nothing. */
  function Next(s: System, a: Action): System {
    match a
    case AskProcess(id, listener) =>
      if id in s.calls then s
      else if Full(s, Process) then s.(calls := s.calls[id := Call(listener, Refused)])
      else Put(s, Process).(calls := s.calls[id := Call(listener, Entering)])
    case AskListener(id) =>
      if !InPhase(s, id, Entering) then s
      else if Full(s, Own(s.calls[id].listener)) then SetCall(s, id, RollingBack)
      else SetCall(Put(s, Own(s.calls[id].listener)), id, Admitted)
    case RollBack(id) =>
      if !InPhase(s, id, RollingBack) then s else SetCall(TakeBack(s, Process), id, Refused)
    case BeginRelease(id) =>
      if !InPhase(s, id, Admitted) then s else SetCall(TakeBack(s, Own(s.calls[id].listener)), id, Releasing)
    case EndRelease(id) =>
      if !InPhase(s, id, Releasing) then s else SetCall(TakeBack(s, Process), id, Finished)
  }

  function Run(actions: seq<Action>): System {
    if actions == [] then System(map[], map[]) else Next(Run(actions[..|actions| - 1]), actions[|actions| - 1])
  }

  // ----- Conservation -----------------------------------------------------------------------

  ghost function Holders(calls: map<int, Call>, limiter: Limiter): set<int> {
    set id | id in calls && Holds(calls[id], limiter)
  }

  /** A limiter's occupancy is the number of calls that hold one of its tokens, within its limit. */
  ghost predicate Conserved(s: System, limiter: Limiter) {
    Tokens(s, limiter) == |Holders(s.calls, limiter)| <= Limit(limiter)
  }

  ghost predicate AllConserved(s: System) {
    forall limiter :: Conserved(s, limiter)
  }

  lemma HoldersUpdate(calls: map<int, Call>, id: int, call: Call, limiter: Limiter)
    ensures Holders(calls[id := call], limiter)
         == (Holders(calls, limiter) - {id}) + (if Holds(call, limiter) then {id} else {})
  {
  }

  /** Changing one call changes the holders by that call alone. */
  lemma HoldersCount(calls: map<int, Call>, id: int, call: Call, limiter: Limiter)
    ensures |Holders(calls[id := call], limiter)|
         == |Holders(calls, limiter)|
            - (if id in calls && Holds(calls[id], limiter) then 1 else 0) + (if Holds(call, limiter) then 1 else 0)
  {
    HoldersUpdate(calls, id, call, limiter);
    MemberCount(Holders(calls, limiter), id, Holds(call, limiter));
  }

  lemma MemberCount(h: set<int>, id: int, stays: bool)
    ensures |(h - {id}) + (if stays then {id} else {})| == |h| - (if id in h then 1 else 0) + (if stays then 1 else 0)
  {
    if id in h {
      assert h == (h - {id}) + {id};
    } else {
      assert h - {id} == h;
    }
  }

  /** A holder's token is there: giving it back never waits. */
  lemma ReleaseNeverBlocks(s: System, id: int, limiter: Limiter)
    requires Conserved(s, limiter) && id in s.calls && Holds(s.calls[id], limiter)
    ensures Tokens(s, limiter) > 0
  {
    assert id in Holders(s.calls, limiter);
  }

  lemma StepConserves(s: System, a: Action, limiter: Limiter)
    requires AllConserved(s)
    ensures Conserved(Next(s, a), limiter)
  {
    var t := Next(s, a);
    assert Conserved(s, limiter);
    if t.calls != s.calls {
      var id := a.id;
      assert t.calls == s.calls[id := t.calls[id]];
      HoldersCount(s.calls, id, t.calls[id], limiter);
      if id in s.calls && Holds(s.calls[id], limiter) {
        ReleaseNeverBlocks(s, id, limiter);
      }
    }
  }

  /** Over every interleaving each limiter is conserved and within its limit. */
  lemma {:induction false} EveryRunConserves(actions: seq<Action>)
    ensures AllConserved(Run(actions))
  {
    if actions == [] {
      forall limiter ensures Conserved(Run(actions), limiter) {
        assert Holders(map[], limiter) == {};
      }
    } else {
      EveryRunConserves(actions[..|actions| - 1]);
      forall limiter ensures Conserved(Run(actions), limiter) {
        StepConserves(Run(actions[..|actions| - 1]), actions[|actions| - 1], limiter);
      }
    }
  }

  /** The limits as written: twelve calls in the process, eight protected and four public ones. */
  lemma ReachableBounds(actions: seq<Action>)
    ensures var s := Run(actions);
            Tokens(s, Process) <= 12 && Tokens(s, Own(Protected)) <= 8 && Tokens(s, Own(Public)) <= 4
  {
    EveryRunConserves(actions);
    assert forall limiter :: Conserved(Run(actions), limiter);
    assert Conserved(Run(actions), Process) && Conserved(Run(actions), Own(Protected));
    assert Conserved(Run(actions), Own(Public));
  }

  /** When every call is over, all permits are free. */
  lemma IdleIsEmpty(actions: seq<Action>, limiter: Limiter)
    requires forall id :: id in Run(actions).calls ==> Run(actions).calls[id].phase in {Refused, Finished}
    ensures Tokens(Run(actions), limiter) == 0
  {
    EveryRunConserves(actions);
    var s := Run(actions);
    assert Conserved(s, limiter);
    forall id | id in s.calls ensures !Holds(s.calls[id], limiter) {
      assert s.calls[id].phase == Refused || s.calls[id].phase == Finished;
    }
    assert Holders(s.calls, limiter) == {};
  }

  lemma RunMore(actions: seq<Action>, a: Action, b: Action)
    ensures Run(actions + [a] + [b]) == Next(Next(Run(actions), a), b)
  {
    assert (actions + [a] + [b])[..|actions| + 1] == actions + [a];
    assert (actions + [a])[..|actions|] == actions;
  }

  /** A new call that finds room in the process and then at its listener is admitted and takes one token of each. */
  lemma RoomAdmits(actions: seq<Action>, id: int, listener: Listener, s: System, t: System)
    requires s == Run(actions) && t == Run(actions + [AskProcess(id, listener)] + [AskListener(id)])
    requires id !in s.calls && Tokens(s, Process) < 12
    requires Tokens(s, Own(listener)) < if listener == Protected then 8 else 4
    ensures t.calls == s.calls[id := Call(listener, Admitted)]
    ensures forall limiter :: Tokens(t, limiter)
                           == Tokens(s, limiter) + if limiter == Process || limiter == Own(listener) then 1 else 0
  {
    RunMore(actions, AskProcess(id, listener), AskListener(id));
    var u := Next(s, AskProcess(id, listener));
    ProcessRoom(s, id, listener);
    AdmittedFrom(s, u, id, listener, t);
  }

  lemma AdmittedFrom(s: System, u: System, id: int, listener: Listener, t: System)
    requires t == Next(u, AskListener(id)) && u.calls == s.calls[id := Call(listener, Entering)]
    requires Tokens(s, Own(listener)) < if listener == Protected then 8 else 4
    requires forall limiter :: Tokens(u, limiter) == Tokens(s, limiter) + if limiter == Process then 1 else 0
    ensures t.calls == s.calls[id := Call(listener, Admitted)]
    ensures forall limiter :: Tokens(t, limiter)
                           == Tokens(s, limiter) + if limiter == Process || limiter == Own(listener) then 1 else 0
  {
    ListenerRoom(u, id, listener);
  }

  lemma ProcessRoom(s: System, id: int, listener: Listener)
    requires id !in s.calls && Tokens(s, Process) < 12
    ensures Next(s, AskProcess(id, listener)).calls == s.calls[id := Call(listener, Entering)]
    ensures forall limiter :: Tokens(Next(s, AskProcess(id, listener)), limiter)
                           == Tokens(s, limiter) + if limiter == Process then 1 else 0
  {
  }

  lemma ListenerRoom(s: System, id: int, listener: Listener)
    requires id in s.calls && s.calls[id] == Call(listener, Entering)
    requires Tokens(s, Own(listener)) < if listener == Protected then 8 else 4
    ensures Next(s, AskListener(id)).calls == s.calls[id := Call(listener, Admitted)]
    ensures forall limiter :: Tokens(Next(s, AskListener(id)), limiter)
                           == Tokens(s, limiter) + if limiter == Own(listener) then 1 else 0
  {
  }

  /** Releasing an admitted call ends it and gives one token of each back, in every reachable state. */
  lemma ReleaseCompletes(actions: seq<Action>, id: int, listener: Listener, s: System, t: System)
    requires s == Run(actions) && t == Run(actions + [BeginRelease(id)] + [EndRelease(id)])
    requires id in s.calls && s.calls[id] == Call(listener, Admitted)
    ensures t.calls == s.calls[id := Call(listener, Finished)]
    ensures forall limiter :: Tokens(t, limiter)
                           == Tokens(s, limiter) - if limiter == Process || limiter == Own(listener) then 1 else 0
  {
    RunMore(actions, BeginRelease(id), EndRelease(id));
    EveryRunConserves(actions);
    ReleaseNeverBlocks(s, id, Process);
    ReleaseNeverBlocks(s, id, Own(listener));
  }

  /** A call that its listener has no room for gives its process token back and is refused. */
  lemma NoRoomRollsBack(actions: seq<Action>, id: int, s: System, t: System)
    requires s == Run(actions) && t == Run(actions + [AskListener(id)] + [RollBack(id)])
    requires id in s.calls && s.calls[id].phase == Entering
    requires Tokens(s, Own(s.calls[id].listener)) >= if s.calls[id].listener == Protected then 8 else 4
    ensures t.calls == s.calls[id := Call(s.calls[id].listener, Refused)]
    ensures forall limiter :: Tokens(t, limiter) == Tokens(s, limiter) - if limiter == Process then 1 else 0
  {
    RunMore(actions, AskListener(id), RollBack(id));
    EveryRunConserves(actions);
    ReleaseNeverBlocks(s, id, Process);
  }

  // ----- Exactly once -----------------------------------------------------------------------

  /** The step takes a token of the limiter for the call. */
  predicate Takes(s: System, a: Action, id: int, limiter: Limiter) {
    a.id == id && Tokens(Next(s, a), limiter) == Tokens(s, limiter) + 1
  }

  /** The step gives a token of the limiter back for the call. */
  predicate Returns(s: System, a: Action, id: int, limiter: Limiter) {
    a.id == id && Tokens(Next(s, a), limiter) == Tokens(s, limiter) - 1
  }

  /** How many tokens of a limiter a call took and gave back over a run. */
  datatype Ledger = Ledger(taken: nat, returned: nat)

  function LedgerOf(actions: seq<Action>, id: int, limiter: Limiter): Ledger {
    if actions == [] then Ledger(0, 0)
    else
      var front, last := actions[..|actions| - 1], actions[|actions| - 1];
      var before := LedgerOf(front, id, limiter);
      Ledger(before.taken + (if Takes(Run(front), last, id, limiter) then 1 else 0),
             before.returned + (if Returns(Run(front), last, id, limiter) then 1 else 0))
  }

  /** What a call's ledger must be in each phase; a call refused by the process took nothing. */
  predicate LedgerFits(calls: map<int, Call>, id: int, limiter: Limiter, ledger: Ledger) {
    if id !in calls then ledger == Ledger(0, 0)
    else
      match calls[id].phase
      case Entering => ledger == (if limiter == Process then Ledger(1, 0) else Ledger(0, 0))
      case RollingBack => ledger == (if limiter == Process then Ledger(1, 0) else Ledger(0, 0))
      case Admitted =>
        ledger == (if limiter == Process || limiter == Own(calls[id].listener) then Ledger(1, 0) else Ledger(0, 0))
      case Releasing =>
        ledger == (if limiter == Process then Ledger(1, 0)
                   else if limiter == Own(calls[id].listener) then Ledger(1, 1) else Ledger(0, 0))
      case Refused => ledger == Ledger(0, 0) || (limiter == Process && ledger == Ledger(1, 1))
      case Finished =>
        ledger == (if limiter == Process || limiter == Own(calls[id].listener) then Ledger(1, 1) else Ledger(0, 0))
  }

  lemma LedgerStep(s: System, a: Action, id: int, limiter: Limiter, before: Ledger, after: Ledger)
    requires AllConserved(s) && LedgerFits(s.calls, id, limiter, before)
    requires after.taken == before.taken + (if Takes(s, a, id, limiter) then 1 else 0)
    requires after.returned == before.returned + (if Returns(s, a, id, limiter) then 1 else 0)
    ensures LedgerFits(Next(s, a).calls, id, limiter, after)
  {
    if id in s.calls && Holds(s.calls[id], limiter) {
      assert Conserved(s, limiter);
      ReleaseNeverBlocks(s, id, limiter);
    }
  }

  lemma {:induction false} EveryLedgerFits(actions: seq<Action>, id: int, limiter: Limiter)
    ensures LedgerFits(Run(actions).calls, id, limiter, LedgerOf(actions, id, limiter))
  {
    if actions != [] {
      var front, last := actions[..|actions| - 1], actions[|actions| - 1];
      EveryLedgerFits(front, id, limiter);
      EveryRunConserves(front);
      LedgerStep(Run(front), last, id, limiter, LedgerOf(front, id, limiter), LedgerOf(actions, id, limiter));
    }
  }

  /**
    Over every run, with any number of release attempts from handlers, taps and deadlines, a call that
    is over has given back exactly what it took: one token of the process and one of its listener when
    it was admitted, and nothing of any other limiter.
   */
  lemma ReleasedExactlyOnce(actions: seq<Action>, id: int, limiter: Limiter)
    requires id in Run(actions).calls
    ensures Run(actions).calls[id].phase == Finished ==>
              LedgerOf(actions, id, limiter) ==
              (if limiter == Process || limiter == Own(Run(actions).calls[id].listener) then Ledger(1, 1)
               else Ledger(0, 0))
    ensures Run(actions).calls[id].phase == Refused ==>
              LedgerOf(actions, id, limiter).taken == LedgerOf(actions, id, limiter).returned <= 1
    ensures LedgerOf(actions, id, limiter).returned <= LedgerOf(actions, id, limiter).taken <= 1
  {
    EveryLedgerFits(actions, id, limiter);
  }

  // ----- Refusals ---------------------------------------------------------------------------

  /** The process refuses a call that is new. */
  predicate RefusedByProcess(s: System, id: int) {
    id !in s.calls && Full(s, Process)
  }

  /** Whether this step refuses a call of the given listener. */
  predicate Refuses(s: System, a: Action, listener: Listener) {
    match a
    case AskProcess(id, l) => l == listener && RefusedByProcess(s, id)
    case AskListener(id) => InPhase(s, id, Entering) && s.calls[id].listener == listener && Full(s, Own(listener))
    case RollBack(_) => false
    case BeginRelease(_) => false
    case EndRelease(_) => false
  }

  ghost function HalfWayCalls(calls: map<int, Call>): set<int> {
    set id | id in calls && HalfWay(calls[id])
  }

  lemma HoldersSplit(calls: map<int, Call>)
    ensures Holders(calls, Process)
         == Holders(calls, Own(Protected)) + Holders(calls, Own(Public)) + HalfWayCalls(calls)
    ensures Holders(calls, Own(Protected)) !! Holders(calls, Own(Public))
    ensures Holders(calls, Own(Protected)) + Holders(calls, Own(Public)) !! HalfWayCalls(calls)
  {
    var a, b, h := Holders(calls, Own(Protected)), Holders(calls, Own(Public)), HalfWayCalls(calls);
    forall id
      ensures id in Holders(calls, Process) <==> id in a || id in b || id in h
      ensures !(id in a && id in b) && !(id in h && (id in a || id in b))
    {
      if id in calls {
        assert calls[id].listener == Protected || calls[id].listener == Public;
      }
    }
  }

  /** Every process token belongs to an admitted call of one listener or to a call that is half-way. */
  lemma TokensSplit(s: System)
    requires AllConserved(s)
    ensures Tokens(s, Process) == Tokens(s, Own(Protected)) + Tokens(s, Own(Public)) + |HalfWayCalls(s.calls)|
  {
    assert Conserved(s, Process) && Conserved(s, Own(Protected)) && Conserved(s, Own(Public));
    HoldersSplit(s.calls);
  }

  /** The places the listeners still have. */
  function Spare(s: System): int {
    (MAXIMUM_PROTECTED - Tokens(s, Own(Protected))) + (MAXIMUM_PUBLIC - Tokens(s, Own(Public)))
  }

  /**
    In every reachable state a new call is refused by the process exactly when the calls half-way
    fill all the places the listeners still have.
   */
  lemma RefusedExactly(actions: seq<Action>, id: int)
    requires id !in Run(actions).calls
    ensures RefusedByProcess(Run(actions), id) <==> |HalfWayCalls(Run(actions).calls)| == Spare(Run(actions))
  {
    var s := Run(actions);
    EveryRunConserves(actions);
    assert Conserved(s, Process);
    TokensSplit(s);
  }

  /** So a refusal while no other call is half-way means the listener's own limit is full. */
  lemma RefusalMeansFull(actions: seq<Action>, a: Action, listener: Listener)
    requires Refuses(Run(actions), a, listener)
    requires forall id :: id in Run(actions).calls && id != a.id ==> !HalfWay(Run(actions).calls[id])
    ensures Full(Run(actions), Own(listener))
  {
    var s := Run(actions);
    EveryRunConserves(actions);
    if a.AskProcess? {
      assert HalfWayCalls(s.calls) == {};
      TokensSplit(s);
      assert Conserved(s, Own(Protected)) && Conserved(s, Own(Public));
    }
  }

  function HalfAdmissions(n: nat): seq<Action> {
    if n == 0 then [] else HalfAdmissions(n - 1) + [AskProcess(n, Public)]
  }

  ghost predicate OnlyHalfWay(s: System, n: nat) {
    && Tokens(s, Process) == n && Tokens(s, Own(Protected)) == 0
    && forall id :: id in s.calls ==> 1 <= id <= n
  }

  lemma OneMoreHalfWay(s: System, n: nat)
    requires OnlyHalfWay(s, n) && n < MAXIMUM_PROCESS
    ensures OnlyHalfWay(Next(s, AskProcess(n + 1, Public)), n + 1)
  {
    assert n + 1 !in s.calls;
    assert !Full(s, Process);
  }

  lemma {:induction false} HalfAdmissionsHold(n: nat)
    requires n <= MAXIMUM_PROCESS
    ensures OnlyHalfWay(Run(HalfAdmissions(n)), n)
  {
    if n > 0 {
      HalfAdmissionsHold(n - 1);
      OneMoreHalfWay(Run(HalfAdmissions(n - 1)), n - 1);
      var actions := HalfAdmissions(n);
      assert actions[..|actions| - 1] == HalfAdmissions(n - 1) && actions[|actions| - 1] == AskProcess(n, Public);
    }
  }

  /** A protected call can be refused with its own limit untouched, by public calls half-way. */
  lemma HalfWayCallsCanRefuse()
    ensures var s := Run(HalfAdmissions(MAXIMUM_PROCESS));
            Refuses(s, AskProcess(0, Protected), Protected) && Tokens(s, Own(Protected)) == 0
  {
    HalfAdmissionsHold(MAXIMUM_PROCESS);
  }

  // ----- The admission loop and the permit --------------------------------------------------

  /** A buffered channel used as a counting semaphore. */
  class Semaphore {
    const capacity: nat
    var held: nat

    constructor (limit: nat)
      ensures capacity == limit && held == 0
    {
      capacity := limit;
      held := 0;
    }

    method Acquire() returns (ok: bool)
      modifies this
      ensures ok <==> old(held) < capacity
      ensures held == old(held) + (if ok then 1 else 0)
    {
      ok := held < capacity;
      if ok {
        held := held + 1;
      }
    }

    method Release()
      requires held > 0
      modifies this
      ensures held == old(held) - 1
    {
      held := held - 1;
    }
  }

  ghost predicate DistinctSemaphores(limiters: seq<Semaphore>) {
    forall i, j :: 0 <= i < j < |limiters| ==> limiters[i] != limiters[j]
  }

  /** Gives back one token of each of the first n semaphores, last first. */
  method ReleaseAll(limiters: seq<Semaphore>, n: nat)
    requires DistinctSemaphores(limiters) && n <= |limiters|
    requires forall i :: 0 <= i < n ==> limiters[i].held > 0
    modifies set l | l in limiters
    ensures forall i :: 0 <= i < |limiters| ==> limiters[i].held == old(limiters[i].held) - (if i < n then 1 else 0)
  {
    var index := n;
    while index > 0
      invariant 0 <= index <= n
      invariant forall i :: 0 <= i < |limiters| ==>
                  limiters[i].held == old(limiters[i].held) - (if index <= i < n then 1 else 0)
    {
      index := index - 1;
      limiters[index].Release();
    }
  }

  /** Takes one token of every semaphore in order, or gives back those it took and takes none. */
  method Admit(limiters: seq<Semaphore>) returns (ok: bool)
    requires DistinctSemaphores(limiters)
    modifies set l | l in limiters
    ensures ok <==> forall i :: 0 <= i < |limiters| ==> old(limiters[i].held) < limiters[i].capacity
    ensures forall i :: 0 <= i < |limiters| ==> limiters[i].held == old(limiters[i].held) + (if ok then 1 else 0)
  {
    for taken := 0 to |limiters|
      invariant forall i :: 0 <= i < |limiters| ==>
                  limiters[i].held == old(limiters[i].held) + (if i < taken then 1 else 0)
      invariant forall i :: 0 <= i < taken ==> old(limiters[i].held) < limiters[i].capacity
    {
      var acquired := limiters[taken].Acquire();
      if !acquired {
        ReleaseAll(limiters, taken);
        return false;
      }
    }
    return true;
  }

  /** The tokens of an admitted call, to be given back once. */
  class Permit {
    const limiters: seq<Semaphore>
    var released: bool

    constructor (taken: seq<Semaphore>)
      ensures limiters == taken && !released
    {
      limiters := taken;
      released := false;
    }

    /** Called by the handler's end, a failing tap and the deadline alike; only the first has an effect. */
    method Release()
      requires DistinctSemaphores(limiters)
      requires !released ==> forall i :: 0 <= i < |limiters| ==> limiters[i].held > 0
      modifies this, set l | l in limiters
      ensures released
      ensures forall i :: 0 <= i < |limiters| ==>
                limiters[i].held == old(limiters[i].held) - (if old(released) then 0 else 1)
    {
      if !released {
        released := true;
        ReleaseAll(limiters, |limiters|);
      }
    }
  }
}
