/**
  Shutdown of a server (managesieveserver/server.go, conn.go): Close cancels the
  context, then walks the registered connections and expires their reads, while
  the connections go on looking at the context, setting deadlines, reading,
  running commands, being hijacked and leaving. Any interleaving of the critical
  sections of any number of connections.
 */
module Shutdown {
  import opened Deadlines

  /** Where the goroutine of a connection stands. */
  datatype Place =
    | Born | Starting
    | Head | Arming | Reading | Ready | Cleared
    | Running | Unblocked | Marked | HandedOver
    | Settling | Leaving | Gone

  /**
    `late` counts the commands dispatched after the context was done.
    `blocked`: waiting for bytes inside a command (a literal, a SASL response).
   */
  datatype Peer = Peer(place: Place, socket: Socket, hijacked: bool, expired: bool, blocked: bool, late: nat)

  /** The mutex over the set of connections; a walk holds it until nothing is left to visit. */
  datatype Lock = Free | Walk(left: set<nat>)

  datatype State = State(cancelled: bool, walked: bool, mu: Lock, conns: set<nat>, peers: seq<Peer>)

  datatype Step =
    // Close
    | Cancel | WalkLock | KickOne(id: nat) | WalkUnlock
    // the network and the clock
    | Accept | Expire(id: nat) | LineArrives(id: nat) | InputEnds(id: nat) | BytesArrive(id: nat)
    // a connection
    | Register(id: nat) | Reject(id: nat) | Greet(id: nat)
    | Look(id: nat) | ArmIdle(id: nat, deadline: Deadline) | ReadExpires(id: nat) | ReadBuffered(id: nat)
    | Blank(id: nat) | Refuse(id: nat) | Clear(id: nat) | Dispatch(id: nat)
    | ArmInside(id: nat, deadline: Deadline) | ArmBothInside(id: nat, deadline: Deadline)
    | Block(id: nat) | BlockExpires(id: nat)
    | HijackClear(id: nat) | HijackMark(id: nat) | HijackUnregister(id: nat)
    | Return(id: nat) | Resume(id: nat) | Quit(id: nat) | Unregister(id: nat)

  const START := State(false, false, Free, {}, [])

  predicate IsPeer(s: State, c: nat) {
    c < |s.peers|
  }

  function With(s: State, c: nat, p: Peer): State
    requires IsPeer(s, c)
  {
    s.(peers := s.peers[c := p])
  }

  /** The context of a connection is derived from the server's. */
  predicate ContextDone(s: State, c: nat)
    requires IsPeer(s, c)
  {
    s.cancelled || s.peers[c].expired
  }

  /** One step: whether it can be taken, and the state after it. */
  function Next(s: State, step: Step): (bool, State) {
    match step
    case Cancel => (true, s.(cancelled := true))
    case WalkLock => (s.cancelled && s.mu == Free, s.(mu := Walk(s.conns)))
    case WalkUnlock => (s.mu == Walk({}), s.(mu := Free, walked := true))
    case Accept => (true, s.(peers := s.peers + [Peer(Born, Socket(false, Unset, Unset), false, false, false, 0)]))
    case KickOne(c) =>
      if s.mu.Walk? && c in s.mu.left && IsPeer(s, c) then
        (true, With(s, c, s.peers[c].(socket := Kick(s.peers[c].socket))).(mu := Walk(s.mu.left - {c})))
      else (false, s)
    case Register(c) =>
      if IsPeer(s, c) then
        (s.peers[c].place == Born && s.mu == Free, With(s, c, s.peers[c].(place := Starting)).(conns := s.conns + {c}))
      else (false, s)
    case HijackUnregister(c) =>
      if IsPeer(s, c) then
        (s.peers[c].place == Marked && s.mu == Free,
            With(s, c, s.peers[c].(place := HandedOver)).(conns := s.conns - {c}))
      else (false, s)
    case Unregister(c) =>
      if IsPeer(s, c) then
        (s.peers[c].place == Leaving && s.mu == Free, With(s, c, s.peers[c].(place := Gone)).(conns := s.conns - {c}))
      else (false, s)
    case _ =>
      if IsPeer(s, step.id) then
        var (ok, p) := Move(s.peers[step.id], step, ContextDone(s, step.id));
        (ok, With(s, step.id, p))
      else (false, s)
  }

  /** The steps of one connection that need no lock but its own. */
  function Move(p: Peer, step: Step, done: bool): (bool, Peer) {
    match step
    case Expire(_) => (true, p.(expired := true))
    case Reject(_) => (p.place == Starting, p.(place := Leaving))
    case Greet(_) => (p.place == Starting, p.(place := Head))
    case Look(_) => (p.place == Head, p.(place := if done then Leaving else Arming))
    case ArmIdle(_, d) =>
      (p.place == Arming, p.(place := Reading, socket := if d == Unset then p.socket else ArmRead(p.socket, d)))
    case LineArrives(_) => (p.place == Reading && p.socket.read != Past, p.(place := Ready))
    case ReadBuffered(_) => (p.place == Reading, p.(place := Ready))
    case InputEnds(_) => (p.place == Reading, p.(place := Leaving))
    case ReadExpires(_) => (p.place == Reading && p.socket.read == Past, p.(place := Leaving))
    case Blank(_) => (p.place == Ready && !p.blocked, p.(place := Head))
    case Refuse(_) => (p.place == Ready && !p.blocked, p.(place := Settling))
    case Clear(_) => (p.place == Ready && !p.blocked, p.(place := Cleared, socket := ArmBoth(p.socket, Unset)))
    case Dispatch(_) => (p.place == Cleared, p.(place := Running, late := if done then p.late + 1 else p.late))
    case ArmInside(_, d) => ((p.place == Ready || p.place == Running) && !p.blocked, p.(socket := ArmRead(p.socket, d)))
    case ArmBothInside(_, d) => (p.place == Running && !p.blocked, p.(socket := ArmBoth(p.socket, d)))
    case Block(_) => ((p.place == Ready || p.place == Running) && !p.blocked, p.(blocked := true))
    case BytesArrive(_) => (p.blocked, p.(blocked := false))
    case BlockExpires(_) => (p.blocked && p.socket.read == Past, p.(blocked := false))
    case HijackClear(_) =>
      (p.place == Running && !p.blocked, p.(place := Unblocked, socket := ArmBoth(p.socket, Unset)))
    case HijackMark(_) => (p.place == Unblocked, p.(place := Marked, hijacked := true))
    case Return(_) => ((p.place == Running && !p.blocked) || p.place == HandedOver, p.(place := Settling))
    case Resume(_) => (p.place == Settling && !p.hijacked, p.(place := Head))
    case Quit(_) => (p.place == Settling, p.(place := Leaving))
    case _ => (false, p)
  }

  function Run(s: State, steps: seq<Step>): (bool, State)
    decreases |steps|
  {
    if steps == [] then (true, s)
    else
      var (ok, before) := Run(s, steps[..|steps| - 1]);
      var (enabled, after) := Next(before, steps[|steps| - 1]);
      (ok && enabled, after)
  }

  // ---------------------------------------------------------------------
  // What every step keeps

  /** Past the look at the context and not yet back at it. */
  predicate Passed(place: Place) {
    || place.Arming? || place.Reading? || place.Ready? || place.Cleared?
    || place.Running? || place.Unblocked? || place.Marked? || place.Settling?
  }

  /** A command may still be dispatched without another look at the context. */
  predicate MayDispatch(place: Place) {
    place.Arming? || place.Reading? || place.Ready? || place.Cleared?
  }

  /** The connection has been handed to the hijacker. */
  predicate Released(p: Peer) {
    p.place.HandedOver? || (p.hijacked && (p.place.Settling? || p.place.Leaving? || p.place.Gone?))
  }

  predicate Owned(p: Peer) {
    !p.place.Born? && !p.place.Gone? && !Released(p)
  }

  predicate PeerInv(p: Peer, done: bool) {
    && Settled(p.socket)
    && (p.blocked ==> p.place.Ready? || p.place.Running?)
    && (p.hijacked ==> p.place.Marked? || Released(p))
    && (p.place.Marked? || p.place.HandedOver? ==> p.hijacked)
    && (p.place.Unblocked? || p.hijacked ==> p.socket.poisoned || (p.socket.read == Unset && p.socket.write == Unset))
    && (if done then p.late + (if MayDispatch(p.place) then 1 else 0) <= 1 else p.late == 0)
    && (p.place.Born? ==> !p.socket.poisoned)
  }

  /** A connection against the server's set and a walk in progress. */
  predicate Registered(s: State, c: nat)
    requires IsPeer(s, c)
  {
    var p := s.peers[c];
    && (c in s.conns <==> Owned(p))
    && (s.mu.Walk? && c in s.conns && c !in s.mu.left ==> p.socket.poisoned)
    && (s.walked && c in s.conns && Passed(p.place) ==> p.socket.poisoned)
  }

  ghost predicate Inv(s: State) {
    && (forall c: nat | IsPeer(s, c) :: PeerInv(s.peers[c], ContextDone(s, c)) && Registered(s, c))
    && (forall c | c in s.conns :: IsPeer(s, c))
    && (s.mu.Walk? ==> s.cancelled && s.mu.left <= s.conns)
    && (s.walked ==> s.cancelled)
  }

  lemma MoveKeepsPeer(p: Peer, step: Step, done: bool)
    requires PeerInv(p, done) && Move(p, step, done).0
    ensures PeerInv(Move(p, step, done).1, done || step.Expire?)
    ensures Owned(Move(p, step, done).1) == Owned(p)
    ensures Move(p, step, done).1.socket.poisoned == p.socket.poisoned
    ensures done && Owned(p) && Passed(Move(p, step, done).1.place) ==> Passed(p.place)
    ensures Move(p, step, done).1.expired == (p.expired || step.Expire?)
  {
  }

  predicate IsMove(step: Step) {
    && !step.Cancel? && !step.WalkLock? && !step.WalkUnlock? && !step.KickOne? && !step.Accept?
    && !step.Register? && !step.HijackUnregister? && !step.Unregister?
  }

  lemma MoveKeepsInv(s: State, step: Step)
    requires Inv(s) && IsMove(step) && Next(s, step).0
    ensures Inv(Next(s, step).1)
  {
    hide Move, PeerInv, Owned, Passed;
    var c := step.id;
    MoveKeepsPeer(s.peers[c], step, ContextDone(s, c));
    var t := Next(s, step).1;
    forall k: nat | IsPeer(t, k) ensures PeerInv(t.peers[k], ContextDone(t, k)) && Registered(t, k) {
      assert PeerInv(s.peers[k], ContextDone(s, k)) && Registered(s, k);
    }
  }

  predicate IsWalkStep(step: Step) {
    step.Cancel? || step.WalkLock? || step.WalkUnlock? || step.KickOne? || step.Accept?
  }

  lemma WalkKeepsInv(s: State, step: Step)
    requires Inv(s) && IsWalkStep(step) && Next(s, step).0
    ensures Inv(Next(s, step).1)
  {
    hide Move;
    var t := Next(s, step).1;
    forall k: nat | IsPeer(t, k) ensures PeerInv(t.peers[k], ContextDone(t, k)) && Registered(t, k) {
      if IsPeer(s, k) {
        assert PeerInv(s.peers[k], ContextDone(s, k)) && Registered(s, k);
      }
    }
  }

  lemma RegistryKeepsInv(s: State, step: Step)
    requires Inv(s) && !IsMove(step) && !IsWalkStep(step) && Next(s, step).0
    ensures Inv(Next(s, step).1)
  {
    hide Move;
    var t := Next(s, step).1;
    forall k: nat | IsPeer(t, k) ensures PeerInv(t.peers[k], ContextDone(t, k)) && Registered(t, k) {
      assert PeerInv(s.peers[k], ContextDone(s, k)) && Registered(s, k);
    }
  }

  lemma {:induction false} RunKeepsInv(s: State, steps: seq<Step>)
    requires Inv(s) && Run(s, steps).0
    ensures Inv(Run(s, steps).1)
    decreases |steps|
  {
    hide Inv, Next;
    if steps != [] {
      RunKeepsInv(s, steps[..|steps| - 1]);
      var before, step := Run(s, steps[..|steps| - 1]).1, steps[|steps| - 1];
      if IsMove(step) {
        MoveKeepsInv(before, step);
      } else if IsWalkStep(step) {
        WalkKeepsInv(before, step);
      } else {
        RegistryKeepsInv(before, step);
      }
    }
  }

  lemma ReachableInv(steps: seq<Step>)
    requires Run(START, steps).0
    ensures Inv(Run(START, steps).1)
  {
    hide Run;
    RunKeepsInv(START, steps);
  }

  lemma {:induction false} RunOfConcat(s: State, before: seq<Step>, after: seq<Step>)
    ensures Run(s, before + after).0 <==> Run(s, before).0 && Run(Run(s, before).1, after).0
    ensures Run(s, before + after).1 == Run(Run(s, before).1, after).1
    decreases |after|
  {
    hide Next;
    if after == [] {
      assert before + after == before;
    } else {
      assert (before + after)[..|before + after| - 1] == before + after[..|after| - 1];
      RunOfConcat(s, before, after[..|after| - 1]);
    }
  }

  lemma PeerFacts(s: State, c: nat)
    requires Inv(s) && IsPeer(s, c)
    ensures PeerInv(s.peers[c], ContextDone(s, c)) && Registered(s, c)
    ensures s.walked ==> s.cancelled
  {
  }

  predicate StepOf(step: Step, c: nat) {
    !step.Cancel? && !step.WalkLock? && !step.WalkUnlock? && !step.Accept? && step.id == c
  }

  /** What a step makes of one connection, and whether it can. */
  function OnPeer(p: Peer, step: Step, c: nat, done: bool): (bool, Peer) {
    if !StepOf(step, c) then (true, p)
    else
      match step
      case KickOne(_) => (true, p.(socket := Kick(p.socket)))
      case Register(_) => (p.place == Born, p.(place := Starting))
      case HijackUnregister(_) => (p.place == Marked, p.(place := HandedOver))
      case Unregister(_) => (p.place == Leaving, p.(place := Gone))
      case _ => Move(p, step, done)
  }

  lemma NextOnOthers(s: State, step: Step, c: nat)
    requires IsPeer(s, c) && !StepOf(step, c) && Next(s, step).0
    ensures var t := Next(s, step).1;
            IsPeer(t, c) && (s.cancelled ==> t.cancelled) && t.peers[c] == s.peers[c]
  {
    hide Move, Kick, ContextDone;
    if IsMove(step) {
      assert Next(s, step).1 == With(s, step.id, Move(s.peers[step.id], step, ContextDone(s, step.id)).1);
    }
  }

  lemma NextOnOwn(s: State, step: Step, c: nat)
    requires IsPeer(s, c) && StepOf(step, c) && Next(s, step).0
    ensures var t := Next(s, step).1;
            && IsPeer(t, c) && t.cancelled == s.cancelled
            && OnPeer(s.peers[c], step, c, ContextDone(s, c)) == (true, t.peers[c])
  {
    hide Move, Kick;
  }

  lemma NextOnPeer(s: State, step: Step, c: nat)
    requires IsPeer(s, c) && Next(s, step).0
    ensures var t := Next(s, step).1;
            && IsPeer(t, c) && (ContextDone(s, c) ==> ContextDone(t, c))
            && OnPeer(s.peers[c], step, c, ContextDone(s, c)) == (true, t.peers[c])
  {
    hide Next, Move, Kick;
    if !StepOf(step, c) {
      NextOnOthers(s, step, c);
    } else {
      NextOnOwn(s, step, c);
      MoveKeepsExpired(s.peers[c], step, ContextDone(s, c));
    }
  }

  lemma MoveKeepsExpired(p: Peer, step: Step, done: bool)
    ensures Move(p, step, done).1.expired == (p.expired || step.Expire?)
  {
    hide ArmRead, ArmBoth;
  }

  // ---------------------------------------------------------------------
  // The walk

  /**
    After a walk, every connection the server still owns has an expired read
    deadline, or has yet to look at a context that is cancelled.
   */
  lemma WalkReachesEveryone(steps: seq<Step>, c: nat)
    requires Run(START, steps).0 && Run(START, steps).1.walked
    requires IsPeer(Run(START, steps).1, c) && Owned(Run(START, steps).1.peers[c])
    ensures var s := Run(START, steps).1;
            var p := s.peers[c];
            s.cancelled && ((p.socket.poisoned && p.socket.read == Past) || p.place.Starting? || p.place.Head?
                || p.place.Leaving?)
  {
    hide Run, Inv;
    ReachableInv(steps);
    PeerFacts(Run(START, steps).1, c);
  }

  lemma NextKeepsPoison(s: State, step: Step, c: nat)
    requires IsPeer(s, c) && s.peers[c].socket.poisoned && Next(s, step).0
    ensures IsPeer(Next(s, step).1, c) && Next(s, step).1.peers[c].socket.poisoned
  {
    hide Next;
    NextOnPeer(s, step, c);
  }

  /** A poisoned connection stays so, its read deadline expired, through every later arm, clear and hijack. */
  lemma {:induction false} PoisonIsPermanent(before: seq<Step>, after: seq<Step>, c: nat)
    requires Run(START, before + after).0
    requires IsPeer(Run(START, before).1, c) && Run(START, before).1.peers[c].socket.poisoned
    ensures var t := Run(START, before + after).1;
            IsPeer(t, c) && t.peers[c].socket.poisoned && t.peers[c].socket.read == Past
    decreases |after|
  {
    hide Run, Inv, Next;
    ReachableInv(before + after);
    if after == [] {
      assert before + after == before;
    } else {
      var front := after[..|after| - 1];
      assert before + after == before + front + [after[|after| - 1]];
      RunLast(START, before + front, after[|after| - 1]);
      PoisonIsPermanent(before, front, c);
      NextKeepsPoison(Run(START, before + front).1, after[|after| - 1], c);
    }
    PeerFacts(Run(START, before + after).1, c);
  }

  lemma RunLast(s: State, front: seq<Step>, step: Step)
    ensures Run(s, front + [step]) == (Run(s, front).0 && Next(Run(s, front).1, step).0, Next(Run(s, front).1, step).1)
  {
    assert (front + [step])[..|front|] == front;
  }

  // ---------------------------------------------------------------------
  // Commands after cancellation

  lemma NextCountsLate(s: State, step: Step, c: nat)
    requires IsPeer(s, c) && ContextDone(s, c) && Next(s, step).0
    ensures var t := Next(s, step).1;
            && IsPeer(t, c) && ContextDone(t, c)
            && t.peers[c].late == s.peers[c].late + if step == Dispatch(c) then 1 else 0
  {
    hide Next;
    NextOnPeer(s, step, c);
  }

  lemma {:induction false} RunCountsLate(s: State, steps: seq<Step>, c: nat)
    requires IsPeer(s, c) && ContextDone(s, c) && Run(s, steps).0
    ensures var t := Run(s, steps).1;
            && IsPeer(t, c) && ContextDone(t, c)
            && t.peers[c].late == s.peers[c].late + multiset(steps)[Dispatch(c)]
    decreases |steps|
  {
    hide Next;
    if steps != [] {
      var front := steps[..|steps| - 1];
      RunCountsLate(s, front, c);
      NextCountsLate(Run(s, front).1, steps[|steps| - 1], c);
      assert steps == front + [steps[|steps| - 1]];
    }
  }

  /** Once its context is done, a connection dispatches at most one more command. */
  lemma OneLateCommand(before: seq<Step>, after: seq<Step>, c: nat)
    requires Run(START, before + after).0
    requires IsPeer(Run(START, before).1, c) && ContextDone(Run(START, before).1, c)
    ensures multiset(after)[Dispatch(c)] <= 1
  {
    hide Run, Inv;
    RunOfConcat(START, before, after);
    RunCountsLate(Run(START, before).1, after, c);
    ReachableInv(before + after);
    PeerFacts(Run(START, before + after).1, c);
  }

  // ---------------------------------------------------------------------
  // Hijacked connections

  lemma NextKeepsReleased(s: State, step: Step, c: nat)
    requires Inv(s) && IsPeer(s, c) && Released(s.peers[c]) && Next(s, step).0
    ensures var t := Next(s, step).1;
            IsPeer(t, c) && Released(t.peers[c]) && t.peers[c].socket == s.peers[c].socket
  {
    hide Next, Move, Inv, Released;
    NextOnPeer(s, step, c);
    PeerFacts(s, c);
    ReleasedIsNotKicked(s, step, c);
    if StepOf(step, c) {
      StepOnReleased(s.peers[c], step, c, ContextDone(s, c));
    }
  }

  lemma ReleasedIsNotKicked(s: State, step: Step, c: nat)
    requires Inv(s) && IsPeer(s, c) && Released(s.peers[c]) && Next(s, step).0
    ensures step != KickOne(c)
  {
    hide Move;
    PeerFacts(s, c);
  }

  lemma StepOnReleased(p: Peer, step: Step, c: nat, done: bool)
    requires PeerInv(p, done) && Released(p) && !step.KickOne? && StepOf(step, c) && OnPeer(p, step, c, done).0
    ensures Released(OnPeer(p, step, c, done).1) && OnPeer(p, step, c, done).1.socket == p.socket
  {
  }

  lemma {:induction false} RunKeepsReleased(s: State, steps: seq<Step>, c: nat)
    requires Inv(s) && IsPeer(s, c) && Released(s.peers[c]) && Run(s, steps).0
    ensures var t := Run(s, steps).1;
            IsPeer(t, c) && Released(t.peers[c]) && t.peers[c].socket == s.peers[c].socket
    decreases |steps|
  {
    hide Inv, Next, Released;
    if steps != [] {
      var front := steps[..|steps| - 1];
      RunKeepsReleased(s, front, c);
      RunKeepsInv(s, front);
      NextKeepsReleased(Run(s, front).1, steps[|steps| - 1], c);
    }
  }

  /**
    Once unregistered by Hijack, a connection is out of the server's reach: its
    deadlines never change again, and they are clear unless a walk came first.
   */
  lemma HijackIsFinal(before: seq<Step>, after: seq<Step>, c: nat)
    requires Run(START, before + after).0
    requires IsPeer(Run(START, before).1, c) && Released(Run(START, before).1.peers[c])
    ensures var s, t := Run(START, before).1, Run(START, before + after).1;
            && IsPeer(t, c) && t.peers[c].socket == s.peers[c].socket
            && (if s.peers[c].socket.poisoned then t.peers[c].socket.read == Past
                else t.peers[c].socket == Socket(false, Unset, Unset))
  {
    hide Run, Inv, Released;
    RunOfConcat(START, before, after);
    ReachableInv(before);
    RunKeepsReleased(Run(START, before).1, after, c);
    PeerFacts(Run(START, before).1, c);
    ReleasedIsHijacked(Run(START, before).1, c);
  }

  lemma ReleasedIsHijacked(s: State, c: nat)
    requires Inv(s) && IsPeer(s, c) && Released(s.peers[c])
    ensures s.peers[c].hijacked
  {
    PeerFacts(s, c);
  }

  // ---------------------------------------------------------------------
  // Close comes to an end

  /** A step that waits for nothing but the mutex: neither for bytes nor for a clock. */
  predicate Guaranteed(step: Step) {
    && !step.LineArrives? && !step.InputEnds? && !step.BytesArrive? && !step.ReadBuffered?
    && !step.Accept? && !step.Expire? && !step.Cancel? && !step.WalkLock? && !step.Block?
  }

  /** The step that brings a connection on its way out, whatever the client does. */
  function WayOut(p: Peer, c: nat): Step {
    if p.blocked then BlockExpires(c)
    else
      match p.place
      case Born => Register(c)
      case Starting => Greet(c)
      case Head => Look(c)
      case Arming => ArmIdle(c, Unset)
      case Reading => ReadExpires(c)
      case Ready => Clear(c)
      case Cleared => Dispatch(c)
      case Running => Return(c)
      case Unblocked => HijackMark(c)
      case Marked => HijackUnregister(c)
      case HandedOver => Return(c)
      case Settling => Quit(c)
      case Leaving => Unregister(c)
      case Gone => Unregister(c)
  }

  /** After a walk nothing waits for a client: each connection can go on, or the mutex is held by a walk that can. */
  lemma NobodyIsStuck(steps: seq<Step>, c: nat)
    requires Run(START, steps).0 && Run(START, steps).1.walked
    requires IsPeer(Run(START, steps).1, c) && !Run(START, steps).1.peers[c].place.Gone?
    ensures var s := Run(START, steps).1;
            if s.mu == Free then
              Guaranteed(WayOut(s.peers[c], c)) && StepOf(WayOut(s.peers[c], c), c) && Next(s, WayOut(s.peers[c], c)).0
            else if s.mu.left == {} then Next(s, WalkUnlock).0
            else forall k | k in s.mu.left :: Next(s, KickOne(k)).0
  {
    hide Run, Inv;
    ReachableInv(steps);
    PeerFacts(Run(START, steps).1, c);
    WalkKnowsPeers(Run(START, steps).1);
  }

  /** And the walk is needed for it: a blocked read with a live or no deadline waits for the client alone. */
  lemma OnlyTheWalkUnblocks(s: State, step: Step, c: nat)
    requires IsPeer(s, c) && s.peers[c].place.Reading? && !s.peers[c].blocked && s.peers[c].socket.read != Past
    requires Guaranteed(step) && StepOf(step, c) && Next(s, step).0
    ensures step == KickOne(c)
  {
    hide ArmRead, ArmBoth, Kick;
  }

  lemma WalkKnowsPeers(s: State)
    requires Inv(s)
    ensures s.mu.Walk? ==> forall k | k in s.mu.left :: IsPeer(s, k)
  {
  }

  /**
    How many steps a connection with a finished context has at most before it is
    gone, reads within a command aside.
   */
  function Rank(place: Place): nat {
    match place
    case Born => 14
    case Starting => 13
    case Arming => 12
    case Reading => 11
    case Ready => 10
    case Cleared => 9
    case Running => 8
    case Unblocked => 7
    case Marked => 6
    case HandedOver => 5
    case Settling => 4
    case Head => 3
    case Leaving => 2
    case Gone => 0
  }

  predicate Control(step: Step, c: nat) {
    && StepOf(step, c) && !step.KickOne? && !step.Expire?
    && !step.ArmInside? && !step.ArmBothInside? && !step.Block? && !step.BytesArrive? && !step.BlockExpires?
  }

  function ControlSteps(steps: seq<Step>, c: nat): nat
    decreases |steps|
  {
    if steps == [] then 0
    else ControlSteps(steps[..|steps| - 1], c) + if Control(steps[|steps| - 1], c) then 1 else 0
  }

  lemma NextDescends(s: State, step: Step, c: nat)
    requires IsPeer(s, c) && ContextDone(s, c) && Next(s, step).0
    ensures var t := Next(s, step).1;
            && IsPeer(t, c) && ContextDone(t, c)
            && Rank(t.peers[c].place) + (if Control(step, c) then 1 else 0) <= Rank(s.peers[c].place)
  {
    hide Next, OnPeer, Rank, Control;
    NextOnPeer(s, step, c);
    StepDescends(s.peers[c], step, c);
  }

  lemma StepDescends(p: Peer, step: Step, c: nat)
    requires OnPeer(p, step, c, true).0
    ensures Rank(OnPeer(p, step, c, true).1.place) + (if Control(step, c) then 1 else 0) <= Rank(p.place)
  {
    hide ArmRead, ArmBoth, Kick;
    if !StepOf(step, c) {
    } else if IsMove(step) {
      hide OnPeer, Move;
      MoveDescends(p, step);
      assert OnPeer(p, step, c, true) == Move(p, step, true) by { MoveOnPeer(p, step, c); }
    }
  }

  lemma MoveOnPeer(p: Peer, step: Step, c: nat)
    requires StepOf(step, c) && IsMove(step)
    ensures OnPeer(p, step, c, true) == Move(p, step, true)
  {
    hide Move;
  }

  lemma MoveDescends(p: Peer, step: Step)
    requires IsMove(step) && Move(p, step, true).0
    ensures Rank(Move(p, step, true).1.place) + (if Control(step, step.id) then 1 else 0) <= Rank(p.place)
  {
    hide ArmRead, ArmBoth;
  }

  lemma {:induction false} RunDescends(s: State, steps: seq<Step>, c: nat)
    requires IsPeer(s, c) && ContextDone(s, c) && Run(s, steps).0
    ensures var t := Run(s, steps).1;
            && IsPeer(t, c) && ContextDone(t, c)
            && Rank(t.peers[c].place) + ControlSteps(steps, c) <= Rank(s.peers[c].place)
    decreases |steps|
  {
    hide Next, Rank, Control;
    if steps != [] {
      var front := steps[..|steps| - 1];
      RunDescends(s, front, c);
      NextDescends(Run(s, front).1, steps[|steps| - 1], c);
    }
  }

  /** With its context done, no connection goes round in circles: it takes at most 14 more steps. */
  lemma LeavesInFewSteps(before: seq<Step>, after: seq<Step>, c: nat)
    requires Run(START, before + after).0
    requires IsPeer(Run(START, before).1, c) && ContextDone(Run(START, before).1, c)
    ensures ControlSteps(after, c) <= Rank(Run(START, before).1.peers[c].place) <= 14
  {
    hide Run, Rank, ControlSteps;
    RunOfConcat(START, before, after);
    RunDescends(Run(START, before).1, after, c);
    RankBound(Run(START, before).1.peers[c].place);
  }

  lemma RankBound(place: Place)
    ensures Rank(place) <= 14
  {
  }
}
