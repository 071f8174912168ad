/**
  SETACTIVE lets go of the store's lock between reading a script and activating
  it. With vetted steps every interleaving is still one of atomic calls: the same
  accounts and the same answers in the same order. Without, it need not be.
 */
module Linearization {
  import opened Text
  import opened ScriptList
  import opened Accounts

  /** The steps with every SETACTIVE made at once, where it was answered. */
  function Linear(h: Host, w: World, steps: seq<Step>): seq<Step>
    decreases |steps|
  {
    if steps == [] then []
    else
      var front, last := steps[..|steps| - 1], steps[|steps| - 1];
      Linear(h, w, front) + AtOnce(h, Run(h, w, front), last)
  }

  function AtOnce(h: Host, w: World, step: Step): seq<Step> {
    if AnswerOf(h, w, step).Waiting? then []
    else
      match step
      case StepSnapshot(_, user, name) => [StepAtomic(user, name)]
      case StepSwitch(call) => [StepAtomic(w.pending[call].user, w.pending[call].name)]
      case _ => [step]
  }

  predicate InOneSection(step: Step) {
    !step.StepSnapshot? && !step.StepSwitch?
  }

  /** A step in one critical section depends on the accounts alone. */
  lemma OneSection(h: Host, w: World, v: World, step: Step)
    requires w.accounts == v.accounts && InOneSection(step)
    ensures Next(h, w, step).accounts == Next(h, v, step).accounts && AnswerOf(h, w, step) == AnswerOf(h, v, step)
  {
    hide Accounts.PutScript, AtomicSetActive, Accounts.DeleteScript, Accounts.RenameScript, Snapshot, HasSpace,
         AddScript, ListOf;
  }

  /** A step that is answered does what the atomic one would; a step that is not leaves the accounts alone. */
  lemma StepAtOnce(h: Host, w: World, v: World, step: Step)
    requires Validated(h, w.accounts) && v.accounts == w.accounts
    ensures var once := AtOnce(h, w, step);
            if once == [] then AnswerOf(h, w, step).Waiting? && Next(h, w, step).accounts == w.accounts
            else
              && |once| == 1 && InOneSection(once[0])
              && Next(h, v, once[0]).accounts == Next(h, w, step).accounts
              && AnswerOf(h, v, once[0]) == AnswerOf(h, w, step) && !AnswerOf(h, w, step).Waiting?
  {
    hide Accounts.PutScript, Accounts.DeleteScript, Accounts.RenameScript, Snapshot, Switch, HasSpace, AddScript,
         ListOf, Validated, ValidationError;
    match step
    case StepSnapshot(call, user, name) =>
      if AnswerOf(h, w, step).Waiting? {
      } else {
        AnsweredAtSnapshot(h, w, call, user, name);
      }
    case StepSwitch(call) =>
      if call in w.pending {
        AnsweredAtSwitch(h, w.accounts, w.pending[call].user, w.pending[call].name);
      }
    case _ => OneSection(h, w, v, step);
  }

  lemma AnsweredAtSnapshot(h: Host, w: World, call: nat, user: string, name: string)
    requires !AnswerOf(h, w, StepSnapshot(call, user, name)).Waiting?
    ensures AtomicSetActive(h, w.accounts, user, name)
            == (Next(h, w, StepSnapshot(call, user, name)).accounts,
                AnswerOf(h, w, StepSnapshot(call, user, name)).error)
  {
    hide Snapshot, Switch, ValidationError;
  }

  lemma AnsweredAtSwitch(h: Host, accounts: AccountMap, user: string, name: string)
    requires Validated(h, accounts)
    ensures AtomicSetActive(h, accounts, user, name) == Switch(accounts, user, name)
  {
    hide Switch, ValidationError, AtomicSetActive, Snapshot;
    if name == "" {
      assert AtomicSetActive(h, accounts, user, name) == Switch(accounts, user, name)
          by { EmptyIsOneSection(h, accounts, user); }
    } else {
      LateAnswerIsAtomic(h, accounts, user, name);
      StoredIsAccepted(h, accounts, user, name);
    }
  }

  lemma EmptyIsOneSection(h: Host, accounts: AccountMap, user: string)
    ensures AtomicSetActive(h, accounts, user, "") == Switch(accounts, user, "")
  {
  }

  lemma StoredIsAccepted(h: Host, accounts: AccountMap, user: string, name: string)
    requires Validated(h, accounts)
    ensures Snapshot(accounts, user, name).1 == None ==> h.Accepts(Snapshot(accounts, user, name).0.value)
  {
  }

  lemma RunLast(h: Host, w: World, front: seq<Step>, last: Step)
    ensures Run(h, w, front + [last]) == Next(h, Run(h, w, front), last)
    ensures Answers(h, w, front + [last]) == Heard(Answers(h, w, front), AnswerOf(h, Run(h, w, front), last))
  {
    hide Next, AnswerOf;
    assert (front + [last])[..|front|] == front;
  }

  /**
    Every interleaving of vetted steps from validated accounts comes to the same
    accounts, and gives the same answers in the same order, as its linear form,
    in which no call takes two critical sections.
   */
  lemma {:induction false} RunLinearizes(h: Host, w: World, steps: seq<Step>)
    requires Validated(h, w.accounts) && forall i | 0 <= i < |steps| :: Vetted(h, steps[i])
    ensures var line := Linear(h, w, steps);
            && (forall i | 0 <= i < |line| :: InOneSection(line[i]))
            && Run(h, w, line).accounts == Run(h, w, steps).accounts
            && Answers(h, w, line) == Answers(h, w, steps)
    decreases |steps|
  {
    hide Validated, Vetted, Next, AnswerOf, AtOnce, InOneSection;
    if steps != [] {
      var front, last := steps[..|steps| - 1], steps[|steps| - 1];
      RunLinearizes(h, w, front);
      RunValidated(h, w, front);
      var line := Linear(h, w, front);
      var before := Run(h, w, front);
      StepAtOnce(h, before, Run(h, w, line), last);
      var once := AtOnce(h, before, last);
      assert steps == front + [last];
      RunLast(h, w, front, last);
      if once == [] {
        assert line + once == line;
      } else {
        assert once == [once[0]];
        RunLast(h, w, line, once[0]);
      }
    }
  }

  // ---------------------------------------------------------------------
  // Without vetting

  function OneScript(user: string, digest: string, rs: Records): AccountMap {
    map[user := AccountValue(digest, rs)]
  }

  /** What is stored for a single name, and which of two contents, comes from small runs. */
  lemma SingleScript(h: Host, user: string, digest: string, name: string, good: string, bad: string)
    requires name != "" && h.Accepts(good) && !h.Accepts(bad)
    ensures var held := OneScript(user, digest, [Record(name, good, false)]);
            var spoilt := OneScript(user, digest, [Record(name, bad, false)]);
            var active := OneScript(user, digest, [Record(name, good, true)]);
            && user in held && Snapshot(held, user, name) == (Some(good), None) && ValidationError(h, good) == None
            && AddScript(held, user, name, bad, false) == spoilt
            && Switch(spoilt, user, name) == (OneScript(user, digest, [Record(name, bad, true)]), None)
            && AtomicSetActive(h, held, user, name) == (active, None)
            && AddScript(active, user, name, bad, false) == spoilt
            && AtomicSetActive(h, spoilt, user, name).0 == spoilt && AtomicSetActive(h, spoilt, user, name).1 != None
  {
    hide WrapValidationError;
    SingleFind(name, good, false);
    SingleFind(name, bad, false);
    SingleFind(name, good, true);
    SingleUpdates(name, good, bad);
    forall rs: Records, more: Records ensures WithScripts(OneScript(user, digest, rs), user, more)
        == OneScript(user, digest, more) {
    }
    hide Find, Has, Seed, Activate, WithScripts;
  }

  lemma SingleFind(name: string, content: string, active: bool)
    ensures Find([Record(name, content, active)], name) == 0 && Has([Record(name, content, active)], name)
  {
  }

  lemma SingleUpdates(name: string, good: string, bad: string)
    requires name != ""
    ensures Seed([Record(name, good, false)], name, bad, false) == [Record(name, bad, false)]
    ensures Seed([Record(name, good, true)], name, bad, false) == [Record(name, bad, false)]
    ensures Activate([Record(name, good, false)], name) == ([Record(name, good, true)], None)
    ensures Activate([Record(name, bad, false)], name) == ([Record(name, bad, true)], None)
  {
    SingleFind(name, good, false);
    SingleFind(name, good, true);
    SingleFind(name, bad, false);
    SingleActivate(name, good);
    SingleActivate(name, bad);
  }

  lemma SingleActivate(name: string, content: string)
    requires name != ""
    ensures Activate([Record(name, content, false)], name) == ([Record(name, content, true)], None)
  {
    SingleFind(name, content, false);
    var rs := [Record(name, content, false)];
    DeactivateFinds(rs, name);
    assert Deactivate(rs) == rs;
    assert rs[0 := Record(name, content, true)] == [Record(name, content, true)];
  }

  /** Content the hook rejects is seeded between the two critical sections of a SETACTIVE, and ends up active. */
  lemma UnvettedIsActivated(h: Host, user: string, digest: string, name: string, good: string, bad: string, call: nat)
    requires name != "" && h.Accepts(good) && !h.Accepts(bad)
    ensures var w := World(OneScript(user, digest, [Record(name, good, false)]), map[]);
            var steps := [StepSnapshot(call, user, name), StepAddScript(user, name, bad, false), StepSwitch(call)];
            && Run(h, w, steps).accounts == OneScript(user, digest, [Record(name, bad, true)])
            && Answers(h, w, steps) == [Done(None), Done(None)]
  {
    hide Run, Answers, Snapshot, Switch, AtomicSetActive, AddScript, ValidationError, OneScript;
    var w := World(OneScript(user, digest, [Record(name, good, false)]), map[]);
    var first, seeding := StepSnapshot(call, user, name), StepAddScript(user, name, bad, false);
    SingleScript(h, user, digest, name, good, bad);
    RunNothing(h, w);
    RunLast(h, w, [], first);
    assert [] + [first] == [first];
    RunLast(h, w, [first], seeding);
    assert [first] + [seeding] == [first, seeding];
    RunLast(h, w, [first, seeding], StepSwitch(call));
    assert [first, seeding] + [StepSwitch(call)] == [first, seeding, StepSwitch(call)];
  }

  /**
    The condition bites: neither order of that seeding and an atomic call gives
    the same, in which nothing is active.
   */
  lemma UnvettedIsNotLinear(h: Host, user: string, digest: string, name: string, good: string, bad: string)
    requires name != "" && h.Accepts(good) && !h.Accepts(bad)
    ensures var w := World(OneScript(user, digest, [Record(name, good, false)]), map[]);
            var seeding, once := StepAddScript(user, name, bad, false), StepAtomic(user, name);
            && Run(h, w, [once, seeding]).accounts == OneScript(user, digest, [Record(name, bad, false)])
            && Run(h, w, [seeding, once]).accounts == OneScript(user, digest, [Record(name, bad, false)])
  {
    hide Run, Answers, AnswerOf, Snapshot, Switch, AtomicSetActive, AddScript, ValidationError, OneScript;
    var w := World(OneScript(user, digest, [Record(name, good, false)]), map[]);
    var seeding, once := StepAddScript(user, name, bad, false), StepAtomic(user, name);
    SingleScript(h, user, digest, name, good, bad);
    RunNothing(h, w);
    RunLast(h, w, [], once);
    RunLast(h, w, [once], seeding);
    RunLast(h, w, [], seeding);
    RunLast(h, w, [seeding], once);
    assert [] + [once] == [once] && [] + [seeding] == [seeding];
    assert [once] + [seeding] == [once, seeding] && [seeding] + [once] == [seeding, once];
  }

  lemma RunNothing(h: Host, w: World)
    ensures Run(h, w, []) == w && Answers(h, w, []) == []
  {
  }
}
