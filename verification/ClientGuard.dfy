/**
  Cancellation in the client (managesieveclient/client.go): the goroutine that
  guard starts, the stop function it returns, and the arming of deadlines, as
  an interleaving of the single actions each performs under the mutex.
 */
module ClientGuard {
  import opened Deadlines

  /** How far the goroutine of a guard has come. */
  datatype Poke = Waiting | Woken | Checking | Poisoning | Expiring | Finished

  /** How far the stop function has come. */
  datatype Stop = NotCalled | Closing | Leaving | Returned

  /** `landed` records that this guard's goroutine has expired the deadlines. */
  datatype Guard = Guard(cancelled: bool, done: bool, poke: Poke, stop: Stop, landed: bool)

  datatype Side = ReadSide | WriteSide

  /** Who is inside the mutex. `passed`: the holder has found the connection not poisoned. */
  datatype Holder = Nobody | Poker(guard: nat) | Stopper(guard: nat) | Armer(side: Side, deadline: int, passed: bool)

  datatype State = State(poisoned: bool, read: Deadline, write: Deadline, mutex: Holder, guards: seq<Guard>)

  datatype Step =
    | Begin
    | Cancel(guard: nat)
    | Wake(guard: nat)
    | Retire(guard: nat)
    | PokeLock(guard: nat)
    | PokeCheck(guard: nat)
    | PokeFlag(guard: nat)
    | PokeExpire(guard: nat)
    | StopLock(guard: nat)
    | StopClose(guard: nat)
    | StopReturn(guard: nat)
    | ArmLock(side: Side, deadline: int)
    | ArmCheck
    | ArmSet
    | Handshake(deadline: int)
    | SetBoth(both: Deadline)

  const START := State(false, Unset, Unset, Nobody, [])

  function With(s: State, g: nat, guard: Guard): State
    requires g < |s.guards|
  {
    s.(guards := s.guards[g := guard])
  }

  /** One action: whether it can be taken, and the state after it. */
  function Next(s: State, step: Step): (r: (bool, State)) {
    match step
    case Begin => (true, s.(guards := s.guards + [Guard(false, false, Waiting, NotCalled, false)]))
    case ArmLock(side, deadline) => (s.mutex == Nobody, s.(mutex := Armer(side, deadline, false)))
    case ArmCheck =>
      (s.mutex.Armer? && !s.mutex.passed,
       if s.poisoned || !s.mutex.Armer? then s.(mutex := Nobody) else s.(mutex := s.mutex.(passed := true)))
    case ArmSet =>
      if s.mutex.Armer? && s.mutex.passed then
        (true,
         if s.mutex.side.ReadSide? then s.(read := At(s.mutex.deadline), mutex := Nobody)
         else s.(write := At(s.mutex.deadline), mutex := Nobody))
      else (false, s)
    case Handshake(deadline) => (true, s.(read := At(deadline), write := At(deadline)))
    case SetBoth(d) => (true, s.(read := d, write := d))
    case _ => if step.guard < |s.guards| then GuardStep(s, step, step.guard) else (false, s)
  }

  function GuardStep(s: State, step: Step, g: nat): (bool, State)
    requires g < |s.guards|
  {
    var x := s.guards[g];
    match step
    case Cancel(_) => (true, With(s, g, x.(cancelled := true)))
    case Wake(_) => (x.poke == Waiting && x.cancelled, With(s, g, x.(poke := Woken)))
    case Retire(_) => (x.poke == Waiting && x.done, With(s, g, x.(poke := Finished)))
    case PokeLock(_) => (x.poke == Woken && s.mutex == Nobody, With(s, g, x.(poke := Checking)).(mutex := Poker(g)))
    case PokeCheck(_) =>
      (x.poke == Checking,
       if x.done then With(s, g, x.(poke := Finished)).(mutex := Nobody) else With(s, g, x.(poke := Poisoning)))
    case PokeFlag(_) => (x.poke == Poisoning, With(s, g, x.(poke := Expiring)).(poisoned := true))
    case PokeExpire(_) =>
      (x.poke == Expiring,
       With(s, g, x.(poke := Finished, landed := true)).(read := Past, write := Past, mutex := Nobody))
    case StopLock(_) => (x.stop == NotCalled && s.mutex == Nobody,
      With(s, g, x.(stop := Closing)).(mutex := Stopper(g)))
    case StopClose(_) => (x.stop == Closing, With(s, g, x.(stop := Leaving, done := true)))
    case StopReturn(_) => (x.stop == Leaving, With(s, g, x.(stop := Returned)).(mutex := Nobody))
    case _ => (false, s)
  }

  /** Whether the steps can be taken one after the other, and where they lead. */
  function Run(s: State, steps: seq<Step>): (r: (bool, State))
    decreases |steps|
  {
    if steps == [] then (true, s)
    else
      var (ok, before) := Run(s, steps[..|steps| - 1]);
      var (enabled, after) := Next(before, steps[|steps| - 1]);
      (ok && enabled, after)
  }

  // ---------------------------------------------------------------------
  // What every step keeps

  predicate Inside(poke: Poke) {
    poke.Checking? || poke.Poisoning? || poke.Expiring?
  }

  /** One guard against the shared state. */
  predicate GuardInv(s: State, g: nat)
    requires g < |s.guards|
  {
    var x := s.guards[g];
    && (Inside(x.poke) <==> s.mutex == Poker(g))
    && (x.stop.Closing? || x.stop.Leaving? <==> s.mutex == Stopper(g))
    && (x.done <==> x.stop.Leaving? || x.stop.Returned?)
    && (x.poke.Poisoning? || x.poke.Expiring? ==> !x.done)
    && (x.poke.Expiring? || x.landed ==> s.poisoned)
    && (x.landed ==> x.poke.Finished?)
  }

  predicate Inv(s: State) {
    && (forall g: nat | g < |s.guards| :: GuardInv(s, g))
    && (s.mutex.Poker? || s.mutex.Stopper? ==> s.mutex.guard < |s.guards|)
    && (s.mutex.Armer? && s.mutex.passed ==> !s.poisoned)
  }

  lemma NextKeepsInv(s: State, step: Step)
    requires Inv(s) && Next(s, step).0
    ensures Inv(Next(s, step).1)
  {
    var t := Next(s, step).1;
    if !step.Begin? && !step.ArmLock? && !step.ArmCheck? && !step.ArmSet? && !step.Handshake? && !step.SetBoth? {
      assert GuardInv(s, step.guard);
    }
    if s.mutex.Poker? || s.mutex.Stopper? {
      assert GuardInv(s, s.mutex.guard);
    }
    forall g: nat | g < |t.guards| ensures GuardInv(t, g) {
      if g < |s.guards| {
        assert GuardInv(s, g);
      }
    }
  }

  lemma {:induction false} RunKeepsInv(s: State, steps: seq<Step>)
    requires Inv(s) && Run(s, steps).0
    ensures Inv(Run(s, steps).1)
    decreases |steps|
  {
    hide Inv, Next;
    if steps != [] {
      RunKeepsInv(s, steps[..|steps| - 1]);
      NextKeepsInv(Run(s, steps[..|steps| - 1]).1, steps[|steps| - 1]);
    }
  }

  lemma {:induction false} RunOfConcat(s: State, before: seq<Step>, after: seq<Step>)
    ensures Run(s, before + after).0 <==> Run(s, before).0 && Run(Run(s, before).1, after).0
    ensures Run(s, before + after).1 == Run(Run(s, before).1, after).1
    decreases |after|
  {
    hide Next;
    if after == [] {
      assert before + after == before;
    } else {
      assert (before + after)[..|before + after| - 1] == before + after[..|after| - 1];
      RunOfConcat(s, before, after[..|after| - 1]);
    }
  }

  lemma StartInv()
    ensures Inv(START)
  {
  }

  // ---------------------------------------------------------------------
  // After stop

  predicate HasReturned(s: State, g: nat) {
    g < |s.guards| && s.guards[g].stop.Returned?
  }

  lemma NextAfterStop(s: State, step: Step, g: nat)
    requires Inv(s) && HasReturned(s, g) && Next(s, step).0
    ensures HasReturned(Next(s, step).1, g) && Next(s, step).1.guards[g].landed == s.guards[g].landed
    ensures step != PokeFlag(g) && step != PokeExpire(g)
  {
    assert GuardInv(s, g);
  }

  lemma {:induction false} RunAfterStop(s: State, steps: seq<Step>, g: nat)
    requires Inv(s) && HasReturned(s, g) && Run(s, steps).0
    ensures HasReturned(Run(s, steps).1, g) && Run(s, steps).1.guards[g].landed == s.guards[g].landed
    ensures PokeFlag(g) !in steps && PokeExpire(g) !in steps
    decreases |steps|
  {
    hide Inv, Next, HasReturned;
    if steps != [] {
      var front := steps[..|steps| - 1];
      RunAfterStop(s, front, g);
      RunKeepsInv(s, front);
      NextAfterStop(Run(s, front).1, steps[|steps| - 1], g);
    }
  }

  /**
    In every interleaving, once stop has returned its guard neither marks the
    connection nor touches a deadline, whatever is cancelled afterwards.
   */
  lemma StopIsFinal(before: seq<Step>, after: seq<Step>, g: nat)
    requires Run(START, before + after).0 && HasReturned(Run(START, before).1, g)
    ensures PokeFlag(g) !in after && PokeExpire(g) !in after
    ensures HasReturned(Run(START, before + after).1, g)
    ensures Run(START, before + after).1.guards[g].landed == Run(START, before).1.guards[g].landed
  {
    hide Inv, Run, HasReturned;
    RunOfConcat(START, before, after);
    StartInv();
    RunKeepsInv(START, before);
    RunAfterStop(Run(START, before).1, after, g);
  }

  /** The goroutine has decided to poison, or has done so. */
  predicate Committed(s: State, g: nat) {
    g < |s.guards| && (s.guards[g].poke.Poisoning? || s.guards[g].poke.Expiring? || s.guards[g].landed)
  }

  lemma NextKeepsCommitted(s: State, step: Step, g: nat)
    requires Committed(s, g)
    requires Inv(s) && Next(s, step).0
    ensures Committed(Next(s, step).1, g)
  {
    assert GuardInv(s, g);
  }

  lemma {:induction false} RunKeepsCommitted(s: State, steps: seq<Step>, g: nat)
    requires Inv(s) && Committed(s, g) && Run(s, steps).0
    ensures Committed(Run(s, steps).1, g)
    decreases |steps|
  {
    hide Inv, Next, Committed;
    if steps != [] {
      RunKeepsCommitted(s, steps[..|steps| - 1], g);
      RunKeepsInv(s, steps[..|steps| - 1]);
      NextKeepsCommitted(Run(s, steps[..|steps| - 1]).1, steps[|steps| - 1], g);
    }
  }

  /** stop is ordered against a poke in flight: if the poke has set the flag, stop returns only once it has landed. */
  lemma StopWaitsForPoke(before: seq<Step>, after: seq<Step>, g: nat)
    requires Run(START, before + [PokeFlag(g)] + after).0
    requires HasReturned(Run(START, before + [PokeFlag(g)] + after).1, g)
    ensures Run(START, before + [PokeFlag(g)] + after).1.guards[g].landed
  {
    hide Inv, Run, Committed;
    var upTo := before + [PokeFlag(g)];
    RunOfConcat(START, upTo, after);
    StartInv();
    RunKeepsInv(START, upTo);
    assert Committed(Run(START, upTo).1, g) by { FlagCommits(before, g); }
    RunKeepsCommitted(Run(START, upTo).1, after, g);
    RunKeepsInv(START, upTo + after);
    CommittedReturnLanded(Run(START, upTo + after).1, g);
  }

  lemma FlagCommits(before: seq<Step>, g: nat)
    requires Run(START, before + [PokeFlag(g)]).0
    ensures Committed(Run(START, before + [PokeFlag(g)]).1, g)
  {
    assert (before + [PokeFlag(g)])[..|before|] == before;
  }

  lemma CommittedReturnLanded(s: State, g: nat)
    requires Inv(s) && Committed(s, g) && HasReturned(s, g)
    ensures s.guards[g].landed
  {
    assert GuardInv(s, g);
  }

  // ---------------------------------------------------------------------
  // After a poke has landed

  /** A step that sets both deadlines without a look at the poison mark, to something that has not passed. */
  predicate Revives(step: Step) {
    step.Handshake? || (step.SetBoth? && step.both != Past)
  }

  predicate Expires(step: Step) {
    step.PokeExpire? || (step.SetBoth? && step.both == Past)
  }

  /** The deadlines have been revived since they were last expired. */
  predicate Revived(steps: seq<Step>)
    decreases |steps|
  {
    if steps == [] then false
    else
      var last := steps[|steps| - 1];
      Revives(last) || (!Expires(last) && Revived(steps[..|steps| - 1]))
  }

  predicate Dead(s: State) {
    s.read == Past && s.write == Past
  }

  predicate Revivable(s: State, revived: bool) {
    s.poisoned && if revived then s.read != Past && s.write != Past else Dead(s)
  }

  lemma NextOnPoisoned(s: State, step: Step, revived: bool)
    requires Inv(s) && Next(s, step).0 && Revivable(s, revived)
    ensures Revivable(Next(s, step).1, Revives(step) || (!Expires(step) && revived))
  {
  }

  lemma {:induction false} RunOnPoisoned(s: State, steps: seq<Step>)
    requires Inv(s) && Run(s, steps).0 && Revivable(s, false)
    ensures Revivable(Run(s, steps).1, Revived(steps))
    decreases |steps|
  {
    hide Inv, Next, Revivable;
    if steps != [] {
      var front := steps[..|steps| - 1];
      RunOnPoisoned(s, front);
      RunKeepsInv(s, front);
      NextOnPoisoned(Run(s, front).1, steps[|steps| - 1], Revived(front));
    }
  }

  /**
    Once a poke has landed, no arm changes a deadline: in every interleaving both
    are expired exactly as long as neither a TLS handshake nor SetDeadline, which
    set them without the mutex, revives them after they were last expired.
   */
  lemma PoisonLasts(before: seq<Step>, g: nat, after: seq<Step>)
    requires Run(START, before + [PokeExpire(g)] + after).0
    ensures var t := Run(START, before + [PokeExpire(g)] + after).1;
            t.poisoned && (Dead(t) <==> !Revived(after))
  {
    hide Inv, Run, Next;
    var upTo := before + [PokeExpire(g)];
    RunOfConcat(START, upTo, after);
    StartInv();
    RunKeepsInv(START, upTo);
    assert Revivable(Run(START, upTo).1, false) by { ExpireLands(before, g); }
    RunOnPoisoned(Run(START, upTo).1, after);
  }

  lemma ExpireLands(before: seq<Step>, g: nat)
    requires Run(START, before + [PokeExpire(g)]).0
    ensures Revivable(Run(START, before + [PokeExpire(g)]).1, false)
  {
    hide Inv;
    assert (before + [PokeExpire(g)])[..|before|] == before;
    StartInv();
    RunKeepsInv(START, before);
    ExpiringIsPoisoned(Run(START, before).1, g);
  }

  lemma ExpiringIsPoisoned(s: State, g: nat)
    requires Inv(s) && g < |s.guards| && s.guards[g].poke.Expiring?
    ensures s.poisoned
  {
    assert GuardInv(s, g);
  }

  /** One guard, cancelled, with its goroutine as far as `poke`. */
  function Alone(poke: Poke, poisoned: bool, expired: bool): State {
    var deadline := if expired then Past else Unset;
    State(poisoned, deadline, deadline, if Inside(poke) then Poker(0) else Nobody,
          [Guard(true, false, poke, NotCalled, expired)])
  }

  lemma AloneUntilWoken()
    ensures Next(Next(START, Begin).1, Cancel(0)) == (true, Alone(Waiting, false, false)) && Next(START, Begin).0
    ensures Next(Alone(Waiting, false, false), Wake(0)) == (true, Alone(Woken, false, false))
  {
    assert forall x: Guard, y: Guard :: [x][0 := y] == [y];
    assert START.guards + [Guard(false, false, Waiting, NotCalled, false)]
        == [Guard(false, false, Waiting, NotCalled, false)];
  }

  lemma AloneUntilPoisoning()
    ensures Next(Alone(Woken, false, false), PokeLock(0)) == (true, Alone(Checking, false, false))
    ensures Next(Alone(Checking, false, false), PokeCheck(0)) == (true, Alone(Poisoning, false, false))
  {
    assert forall x: Guard, y: Guard :: [x][0 := y] == [y];
  }

  lemma AloneUntilFinished()
    ensures Next(Alone(Poisoning, false, false), PokeFlag(0)) == (true, Alone(Expiring, true, false))
    ensures Next(Alone(Expiring, true, false), PokeExpire(0)) == (true, Alone(Finished, true, true))
  {
    assert forall x: Guard, y: Guard :: [x][0 := y] == [y];
  }

  /** A single operation that is cancelled in flight. */
  lemma CancelledRun() returns (steps: seq<Step>)
    ensures Run(START, steps) == (true, Alone(Finished, true, true))
    ensures forall i | 0 <= i < |steps| :: !steps[i].Handshake?
  {
    hide Run, Next, Alone;
    AloneUntilWoken();
    AloneUntilPoisoning();
    AloneUntilFinished();
    assert Run(START, []) == (true, START) by { RunNothing(); }
    steps := RunStep(START, [], Begin);
    steps := RunStep(START, steps, Cancel(0));
    steps := RunStep(START, steps, Wake(0));
    steps := RunStep(START, steps, PokeLock(0));
    steps := RunStep(START, steps, PokeCheck(0));
    steps := RunStep(START, steps, PokeFlag(0));
    steps := RunStep(START, steps, PokeExpire(0));
  }

  /** The condition bites: a handshake after a cancelled operation gives a poisoned connection live deadlines. */
  lemma HandshakeRevives(deadline: int) returns (steps: seq<Step>)
    ensures Run(START, steps).0 && Run(START, steps).1.poisoned && Run(START, steps).1.read == At(deadline)
  {
    hide Run;
    steps := CancelledRun();
    steps := RunStep(START, steps, Handshake(deadline));
  }

  /** So does SetDeadline, which clears them if it is given no time at all. */
  lemma SetDeadlineRevives(d: Deadline) returns (steps: seq<Step>)
    requires d != Past
    ensures Run(START, steps).0 && Run(START, steps).1.poisoned && !Dead(Run(START, steps).1)
    ensures forall i | 0 <= i < |steps| :: !steps[i].Handshake?
  {
    hide Run;
    steps := CancelledRun();
    steps := RunStep(START, steps, SetBoth(d));
  }

  lemma RunNothing()
    ensures Run(START, []) == (true, START)
  {
  }

  lemma RunStep(s: State, front: seq<Step>, step: Step) returns (steps: seq<Step>)
    ensures steps == front + [step]
    ensures Run(s, steps) == (Run(s, front).0 && Next(Run(s, front).1, step).0, Next(Run(s, front).1, step).1)
  {
    steps := front + [step];
    assert steps[..|steps| - 1] == front;
  }
}
