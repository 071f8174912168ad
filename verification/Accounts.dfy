/**
  What sessions do to the accounts of a store, as functions on values: one
  function per critical section of the store's lock (managesievemem/store.go).
 */
module Accounts {
  import opened Text
  import opened Protocol
  import opened ScriptList

  /** An error of the host's Validate hook: an *Error, or any other. */
  datatype HostError = Typed(code: string, message: string, close: bool) | Other(text: string)

  /** The store's configuration. An absent hook accepts everything without warnings. */
  datatype Host = Host(maxScripts: int, validate: string -> (string, Option<HostError>)) {
    predicate Accepts(content: string) {
      validate(content).1 == None
    }
  }

  datatype AccountValue = AccountValue(digest: string, scripts: Records)

  type AccountMap = map<string, AccountValue>

  /** wrapValidationError: other errors become an uncoded, quoted message. */
  function WrapValidationError(e: HostError): SessionError {
    match e
    case Typed(code, message, close) => Coded(code, message, close)
    case Other(text) => Coded("", Quote("Script validation failed: " + SanitizeText(text)), false)
  }

  function ValidationError(h: Host, content: string): Option<SessionError> {
    var e := h.validate(content).1;
    if e == None then None else Some(WrapValidationError(e.value))
  }

  function WithScripts(accounts: AccountMap, user: string, rs: Records): AccountMap
    requires user in accounts
  {
    accounts[user := accounts[user].(scripts := rs)]
  }

  function PutScript(h: Host, accounts: AccountMap, user: string, name: string,
      content: string): (AccountMap, PutResult) {
    var invalid := ValidationError(h, content);
    if invalid != None then (accounts, Refused(invalid.value))
    else if user !in accounts then (accounts, Refused(CloseConnection))
    else
      var (rs, r) := Put(accounts[user].scripts, name, content, h.maxScripts);
      (WithScripts(accounts, user, rs), r)
  }

  /** The first critical section of SetActive: the content to validate. */
  function Snapshot(accounts: AccountMap, user: string, name: string): (Option<string>, Option<SessionError>) {
    if user !in accounts then (None, Some(CloseConnection))
    else
      var rs := accounts[user].scripts;
      if !Has(rs, name) then (None, Some(Nonexistent())) else (Some(rs[Find(rs, name)].content), None)
  }

  /** The last critical section of SetActive, and the only one for the empty name. */
  function Switch(accounts: AccountMap, user: string, name: string): (AccountMap, Option<SessionError>) {
    if user !in accounts then (accounts, Some(CloseConnection))
    else
      var (rs, e) := Activate(accounts[user].scripts, name);
      (WithScripts(accounts, user, rs), e)
  }

  function DeleteScript(accounts: AccountMap, user: string, name: string): (AccountMap, Option<SessionError>) {
    if user !in accounts then (accounts, Some(CloseConnection))
    else
      var (rs, e) := Delete(accounts[user].scripts, name);
      (WithScripts(accounts, user, rs), e)
  }

  function RenameScript(accounts: AccountMap, user: string, oldName: string,
      newName: string): (AccountMap, Option<SessionError>) {
    if user !in accounts then (accounts, Some(CloseConnection))
    else
      var (rs, e) := Rename(accounts[user].scripts, oldName, newName);
      (WithScripts(accounts, user, rs), e)
  }

  function HasSpace(h: Host, accounts: AccountMap, user: string, name: string): Option<SessionError> {
    if user !in accounts then Some(CloseConnection)
    else ScriptList.HaveSpace(accounts[user].scripts, name, h.maxScripts)
  }

  function AddUser(accounts: AccountMap, user: string, digest: string): AccountMap {
    accounts[user := AccountValue(digest, [])]
  }

  /** AddScript fails for an unknown user only. */
  function AddScript(accounts: AccountMap, user: string, name: string, content: string, active: bool): AccountMap {
    if user !in accounts then accounts
    else WithScripts(accounts, user, Seed(accounts[user].scripts, name, content, active))
  }

  /** SETACTIVE as if it were one critical section. */
  function AtomicSetActive(h: Host, accounts: AccountMap, user: string,
      name: string): (AccountMap, Option<SessionError>) {
    if name == "" then Switch(accounts, user, name)
    else
      var (content, e) := Snapshot(accounts, user, name);
      if e != None then (accounts, e)
      else
        var invalid := ValidationError(h, content.value);
        if invalid != None then (accounts, invalid) else Switch(accounts, user, name)
  }

  // ---------------------------------------------------------------------
  // Runs: critical sections of any number of sessions, in any order

  datatype Step =
    | StepAddUser(user: string, digest: string)
    | StepAddScript(user: string, name: string, content: string, active: bool)
    | StepPut(user: string, name: string, content: string)
    | StepSnapshot(call: nat, user: string, name: string)
    | StepSwitch(call: nat)
    | StepAtomic(user: string, name: string)
    | StepDelete(user: string, name: string)
    | StepRename(user: string, oldName: string, newName: string)
    | StepGet(user: string, name: string)
    | StepList(user: string)
    | StepSpace(user: string, name: string)

  /** What the caller of a step learns. */
  datatype Answer =
    | Waiting
    | Done(error: Option<SessionError>)
    | PutDone(result: PutResult)
    | Got(content: Option<string>, error: Option<SessionError>)
    | Seen(scripts: Option<seq<ScriptInfo>>)

  /** A SETACTIVE call between its two critical sections, its snapshot validated. */
  datatype PendingCall = PendingCall(user: string, name: string)

  datatype World = World(accounts: AccountMap, pending: map<nat, PendingCall>)

  function Next(h: Host, w: World, step: Step): World {
    match step
    case StepAddUser(user, digest) => w.(accounts := AddUser(w.accounts, user, digest))
    case StepAddScript(user, name, content, active) =>
      w.(accounts := AddScript(w.accounts, user, name, content, active))
    case StepPut(user, name, content) => w.(accounts := PutScript(h, w.accounts, user, name, content).0)
    case StepSnapshot(call, user, name) =>
      var (content, e) := Snapshot(w.accounts, user, name);
      if name == "" then World(Switch(w.accounts, user, name).0, w.pending - {call})
      else if e != None || ValidationError(h, content.value) != None then w.(pending := w.pending - {call})
      else w.(pending := w.pending[call := PendingCall(user, name)])
    case StepSwitch(call) =>
      if call !in w.pending then w
      else
        var p := w.pending[call];
        World(Switch(w.accounts, p.user, p.name).0, w.pending - {call})
    case StepAtomic(user, name) => w.(accounts := AtomicSetActive(h, w.accounts, user, name).0)
    case StepDelete(user, name) => w.(accounts := DeleteScript(w.accounts, user, name).0)
    case StepRename(user, oldName, newName) => w.(accounts := RenameScript(w.accounts, user, oldName, newName).0)
    case _ => w
  }

  function ListOf(rs: Records): seq<ScriptInfo> {
    seq(|rs|, i requires 0 <= i < |rs| => ScriptInfo(rs[i].name, rs[i].active))
  }

  function AnswerOf(h: Host, w: World, step: Step): Answer {
    match step
    case StepAddUser(_, _) => Done(None)
    case StepAddScript(user, _, _, _) => Done(if user in w.accounts then None else Some(CloseConnection))
    case StepPut(user, name, content) => PutDone(PutScript(h, w.accounts, user, name, content).1)
    case StepSnapshot(_, user, name) =>
      var (content, e) := Snapshot(w.accounts, user, name);
      if name == "" then Done(Switch(w.accounts, user, name).1)
      else if e != None then Done(e)
      else if ValidationError(h, content.value) != None then Done(ValidationError(h, content.value))
      else Waiting
    case StepSwitch(call) =>
      if call in w.pending then Done(Switch(w.accounts, w.pending[call].user, w.pending[call].name).1) else Waiting
    case StepAtomic(user, name) => Done(AtomicSetActive(h, w.accounts, user, name).1)
    case StepDelete(user, name) => Done(DeleteScript(w.accounts, user, name).1)
    case StepRename(user, oldName, newName) => Done(RenameScript(w.accounts, user, oldName, newName).1)
    case StepGet(user, name) => var (content, e) := Snapshot(w.accounts, user, name); Got(content, e)
    case StepList(user) => Seen(if user in w.accounts then Some(ListOf(w.accounts[user].scripts)) else None)
    case StepSpace(user, name) => Done(HasSpace(h, w.accounts, user, name))
  }

  /** The answers given, in order; a call between its two critical sections has none yet. */
  function Heard(answers: seq<Answer>, a: Answer): seq<Answer> {
    if a.Waiting? then answers else answers + [a]
  }

  function Run(h: Host, w: World, steps: seq<Step>): World
    decreases |steps|
  {
    if steps == [] then w else Next(h, Run(h, w, steps[..|steps| - 1]), steps[|steps| - 1])
  }

  function Answers(h: Host, w: World, steps: seq<Step>): seq<Answer>
    decreases |steps|
  {
    if steps == [] then []
    else
      var front := steps[..|steps| - 1];
      Heard(Answers(h, w, front), AnswerOf(h, Run(h, w, front), steps[|steps| - 1]))
  }

  predicate AllWellFormed(accounts: AccountMap) {
    forall user | user in accounts :: WellFormed(accounts[user].scripts)
  }

  lemma ActivateKeepsForm(rs: Records, name: string)
    requires WellFormed(rs)
    ensures WellFormed(Activate(rs, name).0)
  {
    hide Activate, MapActivate, SameOrder, SameContents, SameActive, WellFormed;
    var c := Abstract(rs);
    AbstractRepresents(rs);
    ActivateRefines(rs, c, name);
  }

  lemma PutKeepsForm(rs: Records, name: string, content: string, maxScripts: int)
    requires WellFormed(rs)
    ensures WellFormed(Put(rs, name, content, maxScripts).0)
  {
    hide Put, MapPut, SameOrder, SameContents, SameActive, WellFormed;
    var c := Abstract(rs);
    AbstractRepresents(rs);
    PutRefines(rs, c, name, content, maxScripts);
  }

  lemma DeleteKeepsForm(rs: Records, name: string)
    requires WellFormed(rs)
    ensures WellFormed(Delete(rs, name).0)
  {
    hide Delete, MapDelete, SameOrder, SameContents, SameActive, WellFormed;
    var c := Abstract(rs);
    AbstractRepresents(rs);
    DeleteRefines(rs, c, name);
  }

  lemma RenameKeepsForm(rs: Records, oldName: string, newName: string)
    requires WellFormed(rs)
    ensures WellFormed(Rename(rs, oldName, newName).0)
  {
    hide Rename, MapRename, SameOrder, SameContents, SameActive, WellFormed;
    var c := Abstract(rs);
    AbstractRepresents(rs);
    RenameRefines(rs, c, oldName, newName);
  }

  lemma SeedKeepsForm(rs: Records, name: string, content: string, active: bool)
    requires WellFormed(rs)
    ensures WellFormed(Seed(rs, name, content, active))
  {
    hide Seed, MapSeed, SameOrder, SameContents, SameActive, WellFormed;
    var c := Abstract(rs);
    AbstractRepresents(rs);
    SeedRefines(rs, c, name, content, active);
  }

  lemma ReplacedKeepsForm(accounts: AccountMap, user: string, rs: Records)
    requires AllWellFormed(accounts) && user in accounts && WellFormed(rs)
    ensures AllWellFormed(WithScripts(accounts, user, rs))
  {
    hide WellFormed;
  }

  lemma NextWellFormed(h: Host, w: World, step: Step)
    requires AllWellFormed(w.accounts)
    ensures AllWellFormed(Next(h, w, step).accounts)
  {
    hide WellFormed, Activate, Put, Delete, Rename, Seed, WrapValidationError, WithScripts;
    match step
    case StepAddUser(user, digest) => EmptyWellFormed();
    case StepAddScript(user, name, content, active) =>
      if user in w.accounts {
        SeedKeepsForm(w.accounts[user].scripts, name, content, active);
        ReplacedKeepsForm(w.accounts, user, Seed(w.accounts[user].scripts, name, content, active));
      }
    case StepPut(user, name, content) =>
      if user in w.accounts {
        PutKeepsForm(w.accounts[user].scripts, name, content, h.maxScripts);
        ReplacedKeepsForm(w.accounts, user, Put(w.accounts[user].scripts, name, content, h.maxScripts).0);
      }
    case StepSnapshot(_, user, _) =>
      if user in w.accounts {
        SwitchKeepsForm(w.accounts, user, "");
      }
    case StepSwitch(call) =>
      if call in w.pending && w.pending[call].user in w.accounts {
        SwitchKeepsForm(w.accounts, w.pending[call].user, w.pending[call].name);
      }
    case StepAtomic(user, name) =>
      if user in w.accounts {
        SwitchKeepsForm(w.accounts, user, name);
      }
    case StepDelete(user, name) =>
      if user in w.accounts {
        DeleteKeepsForm(w.accounts[user].scripts, name);
        ReplacedKeepsForm(w.accounts, user, Delete(w.accounts[user].scripts, name).0);
      }
    case StepRename(user, oldName, newName) =>
      if user in w.accounts {
        RenameKeepsForm(w.accounts[user].scripts, oldName, newName);
        ReplacedKeepsForm(w.accounts, user, Rename(w.accounts[user].scripts, oldName, newName).0);
      }
    case _ =>
  }

  lemma SwitchKeepsForm(accounts: AccountMap, user: string, name: string)
    requires AllWellFormed(accounts) && user in accounts
    ensures AllWellFormed(Switch(accounts, user, name).0)
  {
    hide WellFormed, Activate, WithScripts;
    ActivateKeepsForm(accounts[user].scripts, name);
    ReplacedKeepsForm(accounts, user, Activate(accounts[user].scripts, name).0);
  }

  lemma EmptyWellFormed()
    ensures WellFormed([])
  {
  }

  /** In every interleaving, names stay unique and at most one script of an account is active. */
  lemma {:induction false} RunWellFormed(h: Host, w: World, steps: seq<Step>)
    requires AllWellFormed(w.accounts)
    ensures AllWellFormed(Run(h, w, steps).accounts)
    decreases |steps|
  {
    hide AllWellFormed, Next;
    if steps != [] {
      RunWellFormed(h, w, steps[..|steps| - 1]);
      NextWellFormed(h, Run(h, w, steps[..|steps| - 1]), steps[|steps| - 1]);
    }
  }

  // ---------------------------------------------------------------------
  // Validation

  predicate AllAccepted(h: Host, rs: Records) {
    forall i | 0 <= i < |rs| :: h.Accepts(rs[i].content)
  }

  predicate Validated(h: Host, accounts: AccountMap) {
    forall user | user in accounts :: AllAccepted(h, accounts[user].scripts)
  }

  /** A seed the hook has not seen is the only way around validation. */
  predicate Vetted(h: Host, step: Step) {
    step.StepAddScript? ==> h.Accepts(step.content)
  }

  lemma AcceptedKept(h: Host, rs: Records, name: string, newName: string, content: string, active: bool)
    requires AllAccepted(h, rs)
    ensures AllAccepted(h, Activate(rs, name).0)
    ensures AllAccepted(h, Delete(rs, name).0)
    ensures AllAccepted(h, Rename(rs, name, newName).0)
    ensures h.Accepts(content) ==> AllAccepted(h, Put(rs, name, content, h.maxScripts).0)
    ensures h.Accepts(content) ==> AllAccepted(h, Seed(rs, name, content, active))
  {
    hide Find, Has, OverQuota, Put, Seed, AllAccepted;
    assert AllAccepted(h, Activate(rs, name).0) && AllAccepted(h, Rename(rs, name, newName).0)
        by { FlagsAccepted(h, rs, name, newName); }
    assert AllAccepted(h, Delete(rs, name).0) by { DeletedAccepted(h, rs, name); }
    if h.Accepts(content) {
      StoredAccepted(h, rs, name, content, active);
    }
  }

  lemma FlagsAccepted(h: Host, rs: Records, name: string, newName: string)
    requires AllAccepted(h, rs)
    ensures AllAccepted(h, Activate(rs, name).0) && AllAccepted(h, Rename(rs, name, newName).0)
  {
    hide Find;
  }

  lemma DeletedAccepted(h: Host, rs: Records, name: string)
    requires AllAccepted(h, rs)
    ensures AllAccepted(h, Delete(rs, name).0)
  {
    hide Find;
  }

  lemma StoredAccepted(h: Host, rs: Records, name: string, content: string, active: bool)
    requires AllAccepted(h, rs) && h.Accepts(content)
    ensures AllAccepted(h, Put(rs, name, content, h.maxScripts).0) && AllAccepted(h, Seed(rs, name, content, active))
  {
    hide Find;
  }

  lemma ReplacedKeepsValid(h: Host, accounts: AccountMap, user: string, rs: Records)
    requires Validated(h, accounts) && user in accounts && AllAccepted(h, rs)
    ensures Validated(h, WithScripts(accounts, user, rs))
  {
    hide AllAccepted;
  }

  lemma NextValidated(h: Host, w: World, step: Step)
    requires Validated(h, w.accounts) && Vetted(h, step)
    ensures Validated(h, Next(h, w, step).accounts)
  {
    hide AllAccepted, Activate, Put, Delete, Rename, Seed, WrapValidationError, WithScripts;
    match step
    case StepAddUser(user, digest) => EmptyAccepted(h);
    case StepAddScript(user, name, content, active) =>
      if user in w.accounts {
        AcceptedKept(h, w.accounts[user].scripts, name, "", content, active);
        ReplacedKeepsValid(h, w.accounts, user, Seed(w.accounts[user].scripts, name, content, active));
      }
    case StepPut(user, name, content) =>
      if user in w.accounts && h.Accepts(content) {
        AcceptedKept(h, w.accounts[user].scripts, name, "", content, false);
        ReplacedKeepsValid(h, w.accounts, user, Put(w.accounts[user].scripts, name, content, h.maxScripts).0);
      }
    case StepSnapshot(_, user, _) =>
      if user in w.accounts {
        SwitchKeepsValid(h, w.accounts, user, "");
      }
    case StepSwitch(call) =>
      if call in w.pending && w.pending[call].user in w.accounts {
        SwitchKeepsValid(h, w.accounts, w.pending[call].user, w.pending[call].name);
      }
    case StepAtomic(user, name) =>
      if user in w.accounts {
        SwitchKeepsValid(h, w.accounts, user, name);
      }
    case StepDelete(user, name) =>
      if user in w.accounts {
        AcceptedKept(h, w.accounts[user].scripts, name, "", "", false);
        ReplacedKeepsValid(h, w.accounts, user, Delete(w.accounts[user].scripts, name).0);
      }
    case StepRename(user, oldName, newName) =>
      if user in w.accounts {
        AcceptedKept(h, w.accounts[user].scripts, oldName, newName, "", false);
        ReplacedKeepsValid(h, w.accounts, user, Rename(w.accounts[user].scripts, oldName, newName).0);
      }
    case _ =>
  }

  lemma SwitchKeepsValid(h: Host, accounts: AccountMap, user: string, name: string)
    requires Validated(h, accounts) && user in accounts
    ensures Validated(h, Switch(accounts, user, name).0)
  {
    hide AllAccepted, Activate, WithScripts;
    AcceptedKept(h, accounts[user].scripts, name, "", "", false);
    ReplacedKeepsValid(h, accounts, user, Activate(accounts[user].scripts, name).0);
  }

  lemma EmptyAccepted(h: Host)
    ensures AllAccepted(h, [])
  {
  }

  /**
    In every interleaving, every stored script passes the hook, hence so does
    the active one, even if its content was replaced while SETACTIVE validated.
   */
  lemma {:induction false} RunValidated(h: Host, w: World, steps: seq<Step>)
    requires Validated(h, w.accounts) && forall i | 0 <= i < |steps| :: Vetted(h, steps[i])
    ensures Validated(h, Run(h, w, steps).accounts)
    decreases |steps|
  {
    hide Validated, Next, Vetted;
    if steps != [] {
      RunValidated(h, w, steps[..|steps| - 1]);
      NextValidated(h, Run(h, w, steps[..|steps| - 1]), steps[|steps| - 1]);
    }
  }

  // ---------------------------------------------------------------------
  // SETACTIVE in two critical sections

  /**
    A call that ends in its first critical section, for want of the script or
    of valid content, answered what one atomic call at that moment would have.
   */
  lemma EarlyAnswerIsAtomic(h: Host, accounts: AccountMap, user: string, name: string)
    requires name != ""
    requires var (content, e) := Snapshot(accounts, user, name); e != None || ValidationError(h, content.value) != None
    ensures var (content, e) := Snapshot(accounts, user, name);
            AtomicSetActive(h, accounts, user, name)
                == (accounts, if e != None then e else ValidationError(h, content.value))
  {
  }

  /**
    A call that reaches its second critical section acts like one atomic call
    there exactly if the script, should it exist, holds valid content by then.
   */
  lemma LateAnswerIsAtomic(h: Host, accounts: AccountMap, user: string, name: string)
    requires name != ""
    ensures AtomicSetActive(h, accounts, user, name) == Switch(accounts, user, name)
            <==> var (content, e) := Snapshot(accounts, user, name); e == None ==> h.Accepts(content.value)
  {
    hide WrapValidationError;
    var (content, e) := Snapshot(accounts, user, name);
    if e == None {
      assert Switch(accounts, user, name).1 == None;
    } else if user in accounts {
      assert WithScripts(accounts, user, accounts[user].scripts) == accounts;
    }
  }

  /**
    So SETACTIVE is atomic in every interleaving of vetted steps: between its
    snapshot and its second critical section anything may happen.
   */
  lemma SetActiveIsAtomic(h: Host, w: World, between: seq<Step>, user: string, name: string)
    requires name != ""
    requires Validated(h, w.accounts) && forall i | 0 <= i < |between| :: Vetted(h, between[i])
    ensures var (content, e) := Snapshot(w.accounts, user, name);
            var late := Run(h, w, between).accounts;
            if e != None || ValidationError(h, content.value) != None
            then AtomicSetActive(h, w.accounts, user, name)
                 == (w.accounts, if e != None then e else ValidationError(h, content.value))
            else AtomicSetActive(h, late, user, name) == Switch(late, user, name)
  {
    hide Run, Switch, AtomicSetActive, ValidationError;
    var (content, e) := Snapshot(w.accounts, user, name);
    if e != None || ValidationError(h, content.value) != None {
      EarlyAnswerIsAtomic(h, w.accounts, user, name);
    } else {
      var late := Run(h, w, between).accounts;
      RunValidated(h, w, between);
      LateAnswerIsAtomic(h, late, user, name);
    }
  }

  // ---------------------------------------------------------------------
  // Quota

  function Size(accounts: AccountMap, user: string): nat {
    if user in accounts then |accounts[user].scripts| else 0
  }

  /** No PUTSCRIPT, in any state, takes an account past MaxScripts; only seeding can. */
  lemma NextKeepsQuota(h: Host, w: World, step: Step, user: string)
    requires !step.StepAddScript?
    ensures var n := Size(Next(h, w, step).accounts, user);
            n <= Size(w.accounts, user) || (n == Size(w.accounts, user) + 1 && (h.maxScripts > 0 ==> n <= h.maxScripts))
  {
    hide Find, WrapValidationError;
  }

  lemma {:induction false} RunKeepsQuota(h: Host, w: World, steps: seq<Step>, user: string)
    requires h.maxScripts > 0 && Size(w.accounts, user) <= h.maxScripts
    requires forall i | 0 <= i < |steps| :: !steps[i].StepAddScript?
    ensures Size(Run(h, w, steps).accounts, user) <= h.maxScripts
    decreases |steps|
  {
    hide Next, Size;
    if steps != [] {
      RunKeepsQuota(h, w, steps[..|steps| - 1], user);
      NextKeepsQuota(h, Run(h, w, steps[..|steps| - 1]), steps[|steps| - 1], user);
    }
  }

  // ---------------------------------------------------------------------
  // The same runs on ordered maps

  type Catalogs = map<string, Catalog>

  datatype MapWorld = MapWorld(catalogs: Catalogs, pending: map<nat, PendingCall>)

  function MapSnapshot(catalogs: Catalogs, user: string, name: string): (Option<string>, Option<SessionError>) {
    if user !in catalogs then (None, Some(CloseConnection))
    else if name !in catalogs[user].contents then (None, Some(Nonexistent()))
    else (Some(catalogs[user].contents[name]), None)
  }

  function MapHaveSpace(c: Catalog, name: string, maxScripts: int): Option<SessionError> {
    if name !in c.contents && 0 < maxScripts <= |c.contents| then
      Some(Coded("QUOTA/MAXSCRIPTS", "Maximum number of scripts reached", false))
    else None
  }

  function MapSwitch(catalogs: Catalogs, user: string, name: string): (Catalogs, Option<SessionError>) {
    if user !in catalogs then (catalogs, Some(CloseConnection))
    else
      var (c, e) := MapActivate(catalogs[user], name);
      (catalogs[user := c], e)
  }

  function MapAtomicSetActive(h: Host, catalogs: Catalogs, user: string,
      name: string): (Catalogs, Option<SessionError>) {
    var (content, e) := MapSnapshot(catalogs, user, name);
    if name == "" then MapSwitch(catalogs, user, name)
    else if e != None then (catalogs, e)
    else if ValidationError(h, content.value) != None then (catalogs, ValidationError(h, content.value))
    else MapSwitch(catalogs, user, name)
  }

  /** A step on ordered maps with one active name each: what Next does, without lists. */
  function MapNext(h: Host, w: MapWorld, step: Step): MapWorld {
    match step
    case StepAddUser(user, _) => w.(catalogs := w.catalogs[user := Catalog([], map[], None)])
    case StepAddScript(user, name, content, active) =>
      if user !in w.catalogs then w
      else w.(catalogs := w.catalogs[user := MapSeed(w.catalogs[user], name, content, active)])
    case StepPut(user, name, content) =>
      if ValidationError(h, content) != None || user !in w.catalogs then w
      else w.(catalogs := w.catalogs[user := MapPut(w.catalogs[user], name, content, h.maxScripts).0])
    case StepSnapshot(call, user, name) =>
      var (content, e) := MapSnapshot(w.catalogs, user, name);
      if name == "" then MapWorld(MapSwitch(w.catalogs, user, name).0, w.pending - {call})
      else if e != None || ValidationError(h, content.value) != None then w.(pending := w.pending - {call})
      else w.(pending := w.pending[call := PendingCall(user, name)])
    case StepSwitch(call) =>
      if call !in w.pending then w
      else
        var p := w.pending[call];
        MapWorld(MapSwitch(w.catalogs, p.user, p.name).0, w.pending - {call})
    case StepAtomic(user, name) => w.(catalogs := MapAtomicSetActive(h, w.catalogs, user, name).0)
    case StepDelete(user, name) =>
      if user !in w.catalogs then w else w.(catalogs := w.catalogs[user := MapDelete(w.catalogs[user], name).0])
    case StepRename(user, oldName, newName) =>
      if user !in w.catalogs then w
      else w.(catalogs := w.catalogs[user := MapRename(w.catalogs[user], oldName, newName).0])
    case _ => w
  }

  function MapList(c: Catalog): seq<ScriptInfo> {
    seq(|c.order|, i requires 0 <= i < |c.order| => ScriptInfo(c.order[i], c.active == Some(c.order[i])))
  }

  function MapAnswerOf(h: Host, w: MapWorld, step: Step): Answer {
    match step
    case StepAddUser(_, _) => Done(None)
    case StepAddScript(user, _, _, _) => Done(if user in w.catalogs then None else Some(CloseConnection))
    case StepPut(user, name, content) =>
      PutDone(
        if ValidationError(h, content) != None then Refused(ValidationError(h, content).value)
        else if user !in w.catalogs then Refused(CloseConnection)
        else MapPut(w.catalogs[user], name, content, h.maxScripts).1)
    case StepSnapshot(_, user, name) =>
      var (content, e) := MapSnapshot(w.catalogs, user, name);
      if name == "" then Done(MapSwitch(w.catalogs, user, name).1)
      else if e != None then Done(e)
      else if ValidationError(h, content.value) != None then Done(ValidationError(h, content.value))
      else Waiting
    case StepSwitch(call) =>
      if call in w.pending then Done(MapSwitch(w.catalogs, w.pending[call].user, w.pending[call].name).1) else Waiting
    case StepAtomic(user, name) => Done(MapAtomicSetActive(h, w.catalogs, user, name).1)
    case StepDelete(user, name) =>
      Done(if user !in w.catalogs then Some(CloseConnection) else MapDelete(w.catalogs[user], name).1)
    case StepRename(user, oldName, newName) =>
      Done(if user !in w.catalogs then Some(CloseConnection) else MapRename(w.catalogs[user], oldName, newName).1)
    case StepGet(user, name) => var (content, e) := MapSnapshot(w.catalogs, user, name); Got(content, e)
    case StepList(user) => Seen(if user in w.catalogs then Some(MapList(w.catalogs[user])) else None)
    case StepSpace(user, name) =>
      Done(if user !in w.catalogs then Some(CloseConnection) else MapHaveSpace(w.catalogs[user], name, h.maxScripts))
  }

  function MapRun(h: Host, w: MapWorld, steps: seq<Step>): MapWorld
    decreases |steps|
  {
    if steps == [] then w else MapNext(h, MapRun(h, w, steps[..|steps| - 1]), steps[|steps| - 1])
  }

  function MapAnswers(h: Host, w: MapWorld, steps: seq<Step>): seq<Answer>
    decreases |steps|
  {
    if steps == [] then []
    else
      var front := steps[..|steps| - 1];
      Heard(MapAnswers(h, w, front), MapAnswerOf(h, MapRun(h, w, front), steps[|steps| - 1]))
  }

  predicate Mirrors(w: World, m: MapWorld) {
    && w.accounts.Keys == m.catalogs.Keys && w.pending == m.pending
    && forall user | user in w.accounts :: Represents(w.accounts[user].scripts, m.catalogs[user])
  }

  lemma ReplacedMirrors(w: World, m: MapWorld, user: string, rs: Records, c: Catalog)
    requires Mirrors(w, m) && user in w.accounts && Represents(rs, c)
    ensures Mirrors(w.(accounts := WithScripts(w.accounts, user, rs)), m.(catalogs := m.catalogs[user := c]))
  {
    hide Represents;
  }

  lemma SnapshotMirrors(w: World, m: MapWorld, user: string, name: string)
    requires Mirrors(w, m)
    ensures Snapshot(w.accounts, user, name) == MapSnapshot(m.catalogs, user, name)
  {
    if user in w.accounts {
      HasIffMapped(w.accounts[user].scripts, m.catalogs[user], name);
    }
  }

  lemma NextMirrors(h: Host, w: World, m: MapWorld, step: Step)
    requires Mirrors(w, m)
    ensures Mirrors(Next(h, w, step), MapNext(h, m, step))
  {
    hide Represents, Activate, Put, Delete, Rename, Seed, MapActivate, MapPut, MapDelete, MapRename, MapSeed,
         WrapValidationError, WithScripts, Snapshot, MapSnapshot, Mirrors, Switch, MapSwitch;
    assert w.accounts.Keys == m.catalogs.Keys && w.pending == m.pending by { MirrorKeys(w, m); }
    match step
    case StepAddUser(user, digest) =>
      assert Mirrors(Next(h, w, step), MapNext(h, m, step)) by { AddUserMirrors(w, m, user, digest); }
    case StepAddScript(user, name, content, active) =>
      if user in w.accounts {
        var rs, c := MirrorOf(w, m, user);
        SeedRefines(rs, c, name, content, active);
        ReplacedMirrors(w, m, user, Seed(rs, name, content, active), MapSeed(c, name, content, active));
      }
    case StepPut(user, name, content) =>
      if user in w.accounts && ValidationError(h, content) == None {
        var rs, c := MirrorOf(w, m, user);
        PutRefines(rs, c, name, content, h.maxScripts);
        ReplacedMirrors(w, m, user, Put(rs, name, content, h.maxScripts).0, MapPut(c, name, content, h.maxScripts).0);
      }
    case StepSnapshot(call, user, name) =>
      SnapshotMirrors(w, m, user, name);
      if name == "" {
        var w', m' := w.(pending := w.pending - {call}), m.(pending := m.pending - {call});
        PendingMirrors(w, m, w.pending - {call});
        SwitchMirrors(w', m', user, name);
      } else {
        PendingMirrors(w, m, Next(h, w, step).pending);
      }
    case StepSwitch(call) =>
      if call in w.pending {
        var p := w.pending[call];
        PendingMirrors(w, m, w.pending - {call});
        SwitchMirrors(w.(pending := w.pending - {call}), m.(pending := m.pending - {call}), p.user, p.name);
      }
    case StepAtomic(user, name) =>
      SnapshotMirrors(w, m, user, name);
      SwitchMirrors(w, m, user, name);
    case StepDelete(user, name) =>
      if user in w.accounts {
        var rs, c := MirrorOf(w, m, user);
        DeleteRefines(rs, c, name);
        ReplacedMirrors(w, m, user, Delete(rs, name).0, MapDelete(c, name).0);
      }
    case StepRename(user, oldName, newName) =>
      if user in w.accounts {
        var rs, c := MirrorOf(w, m, user);
        RenameRefines(rs, c, oldName, newName);
        ReplacedMirrors(w, m, user, Rename(rs, oldName, newName).0, MapRename(c, oldName, newName).0);
      }
    case _ =>
  }

  lemma MirrorKeys(w: World, m: MapWorld)
    requires Mirrors(w, m)
    ensures w.accounts.Keys == m.catalogs.Keys && w.pending == m.pending
  {
  }

  lemma MirrorOf(w: World, m: MapWorld, user: string) returns (rs: Records, c: Catalog)
    requires Mirrors(w, m) && user in w.accounts
    ensures user in m.catalogs && rs == w.accounts[user].scripts && c == m.catalogs[user] && Represents(rs, c)
  {
    hide Represents;
    rs, c := w.accounts[user].scripts, m.catalogs[user];
  }

  lemma PendingMirrors(w: World, m: MapWorld, pending: map<nat, PendingCall>)
    requires Mirrors(w, m)
    ensures Mirrors(w.(pending := pending), m.(pending := pending))
  {
    hide Represents;
  }

  lemma AddUserMirrors(w: World, m: MapWorld, user: string, digest: string)
    requires Mirrors(w, m)
    ensures Mirrors(w.(accounts := AddUser(w.accounts, user, digest)),
                    m.(catalogs := m.catalogs[user := Catalog([], map[], None)]))
  {
    assert Represents([], Catalog([], map[], None));
    hide Represents;
  }

  lemma SwitchMirrors(w: World, m: MapWorld, user: string, name: string)
    requires Mirrors(w, m)
    ensures Switch(w.accounts, user, name).1 == MapSwitch(m.catalogs, user, name).1
    ensures Mirrors(w.(accounts := Switch(w.accounts, user, name).0),
            m.(catalogs := MapSwitch(m.catalogs, user, name).0))
  {
    hide Represents, Activate, MapActivate, Mirrors, WithScripts;
    MirrorKeys(w, m);
    if user in w.accounts {
      var rs, c := MirrorOf(w, m, user);
      ActivateRefines(rs, c, name);
      ReplacedMirrors(w, m, user, Activate(rs, name).0, MapActivate(c, name).0);
    }
  }

  lemma ListMirrors(rs: Records, c: Catalog)
    requires Represents(rs, c)
    ensures ListOf(rs) == MapList(c)
  {
    hide SameContents;
  }

  /** HAVESPACE counts the entries of the map. */
  lemma SpaceMirrors(rs: Records, c: Catalog, name: string, maxScripts: int)
    requires Represents(rs, c)
    ensures ScriptList.HaveSpace(rs, name, maxScripts) == MapHaveSpace(c, name, maxScripts)
  {
    hide SameActive, UniqueNames, AtMostOneActive;
    HasIffMapped(rs, c, name);
    EntriesCount(rs, c);
  }

  lemma {:induction false} EntriesCount(rs: Records, c: Catalog)
    requires Represents(rs, c)
    ensures |c.contents| == |rs|
  {
    hide Find, SameActive;
    var names := set i | 0 <= i < |rs| :: rs[i].name;
    forall name | name in c.contents ensures name in names {
      HasIffMapped(rs, c, name);
    }
    assert names == c.contents.Keys;
    DistinctNames(rs);
  }

  lemma {:induction false} DistinctNames(rs: Records)
    requires UniqueNames(rs)
    ensures |set i | 0 <= i < |rs| :: rs[i].name| == |rs|
  {
    var names := set i | 0 <= i < |rs| :: rs[i].name;
    if rs != [] {
      var front, n := rs[..|rs| - 1], |rs| - 1;
      DistinctNames(front);
      var before := set i | 0 <= i < |front| :: front[i].name;
      assert rs[n].name !in before;
      assert names == before + {rs[n].name} by {
        assert forall i | 0 <= i < n :: front[i] == rs[i];
      }
    }
  }

  /** Every step is answered from the lists as it is from the maps. */
  lemma AnswerMirrors(h: Host, w: World, m: MapWorld, step: Step)
    requires Mirrors(w, m)
    ensures AnswerOf(h, w, step) == MapAnswerOf(h, m, step)
  {
    hide Represents, Activate, Put, Delete, Rename, Seed, MapActivate, MapPut, MapDelete, MapRename, MapSeed,
         WrapValidationError, WithScripts, Snapshot, MapSnapshot, Mirrors, Switch, MapSwitch, ListOf, MapList,
         ScriptList.HaveSpace, MapHaveSpace;
    MirrorKeys(w, m);
    match step
    case StepPut(user, name, content) =>
      if user in w.accounts {
        var rs, c := MirrorOf(w, m, user);
        PutRefines(rs, c, name, content, h.maxScripts);
      }
    case StepSnapshot(_, user, name) =>
      SnapshotMirrors(w, m, user, name);
      SwitchMirrors(w, m, user, name);
    case StepSwitch(call) =>
      if call in w.pending {
        SwitchMirrors(w, m, w.pending[call].user, w.pending[call].name);
      }
    case StepAtomic(user, name) =>
      SnapshotMirrors(w, m, user, name);
      SwitchMirrors(w, m, user, name);
    case StepDelete(user, name) =>
      if user in w.accounts {
        var rs, c := MirrorOf(w, m, user);
        DeleteRefines(rs, c, name);
      }
    case StepRename(user, oldName, newName) =>
      if user in w.accounts {
        var rs, c := MirrorOf(w, m, user);
        RenameRefines(rs, c, oldName, newName);
      }
    case StepGet(user, name) => SnapshotMirrors(w, m, user, name);
    case StepList(user) =>
      if user in w.accounts {
        var rs, c := MirrorOf(w, m, user);
        ListMirrors(rs, c);
      }
    case StepSpace(user, name) =>
      if user in w.accounts {
        var rs, c := MirrorOf(w, m, user);
        SpaceMirrors(rs, c, name, h.maxScripts);
      }
    case _ =>
  }

  /**
    In every interleaving of any number of sessions, the lists the store keeps
    in place stand for the ordered maps that the same steps produce, and every
    caller is answered from them as it would be from the maps.
   */
  lemma {:induction false} RunRefines(h: Host, w: World, m: MapWorld, steps: seq<Step>)
    requires Mirrors(w, m)
    ensures Mirrors(Run(h, w, steps), MapRun(h, m, steps))
    ensures Answers(h, w, steps) == MapAnswers(h, m, steps)
    decreases |steps|
  {
    hide Mirrors, Next, MapNext, AnswerOf, MapAnswerOf;
    if steps != [] {
      RunRefines(h, w, m, steps[..|steps| - 1]);
      NextMirrors(h, Run(h, w, steps[..|steps| - 1]), MapRun(h, m, steps[..|steps| - 1]), steps[|steps| - 1]);
      AnswerMirrors(h, Run(h, w, steps[..|steps| - 1]), MapRun(h, m, steps[..|steps| - 1]), steps[|steps| - 1]);
    }
  }
}
