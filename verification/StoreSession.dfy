/**
  The in-memory store as the session behind a connection
  (managesievemem/store.go): who gets in, and that every answer is the one the
  account's ordered map gives.
 */
module StoreSession {
  import opened Text
  import opened Protocol
  import ScriptList
  import Accounts

  // ---------------------------------------------------------------------
  // The session (managesievemem.Session)

  /** The store's accounts and the user this session is logged in as. */
  datatype Backend = Backend(accounts: Accounts.AccountMap, user: string)

  function Failed(e: SessionError): Reply {
    Reply(Some(e), false, [], "", false, "")
  }

  function Done(e: Option<SessionError>): Reply {
    Reply(e, false, [], "", false, "")
  }

  function AuthFailed(): SessionError {
    Coded("", Quote("Authentication failed"), false)
  }

  /** Session.login; equal digests stand for equal passwords. */
  function LogIn(digest: string -> string, b: Backend, user: string, password: string): (Backend, Reply) {
    if user in b.accounts && b.accounts[user].digest == digest(password) then (b.(user := user), Done(None))
    else (b, Failed(AuthFailed()))
  }

  function Answer(h: Accounts.Host, digest: string -> string, b: Backend, call: Call): (Backend, Reply) {
    hide Accounts.PutScript, Accounts.RenameScript, Accounts.AtomicSetActive, Accounts.DeleteScript, Accounts.HasSpace,
         Accounts.ValidationError;
    match call
    case AuthenticatePlain(authzId, authnId, password) =>
      if authzId != "" && authzId != authnId then (b, Failed(AuthFailed())) else LogIn(digest, b, authnId, password)
    case Login(username, password) => LogIn(digest, b, username, password)
    case ListScripts =>
      if b.user !in b.accounts then (b, Failed(CloseConnection))
      else (b, Done(None).(scripts := Accounts.ListOf(b.accounts[b.user].scripts)))
    case GetScript(name) =>
      var (content, e) := Accounts.Snapshot(b.accounts, b.user, name);
      (b, if content == None then Done(e) else Done(None).(text := content.value))
    case PutScript(name, content) =>
      var (accounts, r) := Accounts.PutScript(h, b.accounts, b.user, name, content);
      (b.(accounts := accounts),
       if r.Refused? then Failed(r.error)
       else Done(None).(updated := r.Updated?, warnings := h.validate(content).0))
    case CheckScript(content) =>
      var e := Accounts.ValidationError(h, content);
      (b, if e != None then Done(e) else Done(None).(warnings := h.validate(content).0))
    case HaveSpace(name, _) => (b, Done(Accounts.HasSpace(h, b.accounts, b.user, name)))
    case RenameScript(oldName, newName) =>
      var (accounts, e) := Accounts.RenameScript(b.accounts, b.user, oldName, newName);
      (b.(accounts := accounts), Done(e))
    case SetActive(name) =>
      var (accounts, e) := Accounts.AtomicSetActive(h, b.accounts, b.user, name);
      (b.(accounts := accounts), Done(e))
    case DeleteScript(name) =>
      var (accounts, e) := Accounts.DeleteScript(b.accounts, b.user, name);
      (b.(accounts := accounts), Done(e))
    case Close => (b, Done(None))
  }

  /** The store after the calls of a trace. */
  function Replay(h: Accounts.Host, digest: string -> string, start: Backend, trace: seq<Event>): Backend {
    if trace == [] then start
    else
      var b := Replay(h, digest, start, trace[..|trace| - 1]);
      var e := trace[|trace| - 1];
      if e.Called? then Answer(h, digest, b, e.call).0 else b
  }

  lemma ReplayCall(h: Accounts.Host, digest: string -> string, start: Backend, trace: seq<Event>, call: Call, ok: bool)
    ensures Replay(h, digest, start, trace + [Called(call, ok)])
            == Answer(h, digest, Replay(h, digest, start, trace), call).0
  {
    hide Answer;
    assert (trace + [Called(call, ok)])[..|trace|] == trace;
  }

  // ---------------------------------------------------------------------
  // Who gets in

  /** The user a client claims to be, and the identity it wants to act as. */
  function Claimed(call: Call): (string, string)
    requires call.IsAuth()
  {
    if call.Login? then (call.username, call.username) else (call.authnId, call.authzId)
  }

  function Offered(call: Call): string
    requires call.IsAuth()
  {
    call.password
  }

  /** The claimed account exists, the password is its own, and nobody acts as anyone else. */
  predicate Grants(accounts: Accounts.AccountMap, digest: string -> string, call: Call)
    requires call.IsAuth()
  {
    var (user, actor) := Claimed(call);
    user in accounts && digest(Offered(call)) == accounts[user].digest && (actor == user || actor == "")
  }

  /**
    A login is granted exactly to the owner of an account under its own name, and
    the session is that user's from then on; otherwise nothing changes, and all
    the client learns is that authentication failed.
   */
  lemma LoginIsChecked(h: Accounts.Host, digest: string -> string, b: Backend, call: Call)
    requires call.IsAuth()
    ensures var (b', reply) := Answer(h, digest, b, call);
            && (reply.error == None <==> Grants(b.accounts, digest, call))
            && b' == (if Grants(b.accounts, digest, call) then Backend(b.accounts, Claimed(call).0) else b)
            && (reply.error.Some? ==> reply.error.value == Coded("", Quote("Authentication failed"), false))
            && !reply.hijack
  {
    hide Quote;
  }

  // ---------------------------------------------------------------------
  // The answers of the account

  /** The step of the store that a script call is, uninterrupted; checking a script is none. */
  function StepOf(user: string, call: Call): Accounts.Step
    requires call.IsScript() && !call.CheckScript?
  {
    match call
    case ListScripts => Accounts.StepList(user)
    case GetScript(name) => Accounts.StepGet(user, name)
    case PutScript(name, content) => Accounts.StepPut(user, name, content)
    case HaveSpace(name, _) => Accounts.StepSpace(user, name)
    case RenameScript(oldName, newName) => Accounts.StepRename(user, oldName, newName)
    case SetActive(name) => Accounts.StepAtomic(user, name)
    case DeleteScript(name) => Accounts.StepDelete(user, name)
  }

  /** A reply passes on the answer of the store, no more and no less. */
  predicate PassesOn(h: Accounts.Host, call: Call, a: Accounts.Answer, reply: Reply) {
    && !reply.hijack
    && match a
       case Waiting => false
       case Done(e) => reply.error == e
       case PutDone(Refused(e)) => reply.error == Some(e)
       case PutDone(r) =>
         && reply.error == None && reply.updated == r.Updated?
         && (call.PutScript? ==> reply.warnings == h.validate(call.content).0)
       case Got(content, e) => if e.Some? then reply.error == e else reply.error == None && content == Some(reply.text)
       case Seen(None) => reply.error == Some(CloseConnection)
       case Seen(Some(scripts)) => reply.error == None && reply.scripts == scripts
  }

  function Alone(accounts: Accounts.AccountMap): Accounts.World {
    Accounts.World(accounts, map[])
  }

  /** Every script call is its step of the store: same accounts afterwards, same answer. */
  lemma AnswerIsStep(h: Accounts.Host, digest: string -> string, b: Backend, call: Call)
    requires call.IsScript() && !call.CheckScript?
    ensures var (b', reply) := Answer(h, digest, b, call);
            && b' == Backend(Accounts.Next(h, Alone(b.accounts), StepOf(b.user, call)).accounts, b.user)
            && PassesOn(h, call, Accounts.AnswerOf(h, Alone(b.accounts), StepOf(b.user, call)), reply)
  {
    hide Accounts.PutScript, Accounts.RenameScript, Accounts.AtomicSetActive, Accounts.DeleteScript, Accounts.HasSpace,
         Accounts.ValidationError, Accounts.Switch, Accounts.ListOf, Quote;
    assert call.GetScript? ==> SnapshotFinds(b, call.name) by {
      if call.GetScript? {
        SnapshotAnswers(b, call.name);
      }
    }
  }

  predicate SnapshotFinds(b: Backend, name: string) {
    var (content, e) := Accounts.Snapshot(b.accounts, b.user, name);
    content.Some? <==> e.None?
  }

  lemma SnapshotAnswers(b: Backend, name: string)
    ensures SnapshotFinds(b, name)
  {
  }

  /** What the host says of a script is passed on: its own error as it is, any other in words of the store. */
  predicate RejectedBy(e: Accounts.HostError, passed: SessionError) {
    match e
    case Typed(code, message, close) => passed == Coded(code, message, close)
    case Other(text) => passed == Coded("", Quote("Script validation failed: " + SanitizeText(text)), false)
  }

  /** CHECKSCRIPT asks the host, and changes nothing. */
  lemma CheckAsksHost(h: Accounts.Host, digest: string -> string, b: Backend, content: string)
    ensures var (b', reply) := Answer(h, digest, b, CheckScript(content));
            && b' == b
            && (reply.error == None <==> h.Accepts(content))
            && (reply.error == None ==> reply.warnings == h.validate(content).0)
            && (reply.error.Some? ==> RejectedBy(h.validate(content).1.value, reply.error.value))
  {
    hide Accounts.WrapValidationError, Accounts.PutScript, Accounts.RenameScript, Accounts.AtomicSetActive,
         Accounts.DeleteScript, Accounts.HasSpace, Accounts.Snapshot, Accounts.ListOf, LogIn, Quote;
    assert Accounts.ValidationError(h, content)
        == if h.Accepts(content) then None else Some(Accounts.WrapValidationError(h.validate(content).1.value));
    if !h.Accepts(content) {
      WrappedIsPassed(h.validate(content).1.value);
    }
  }

  lemma WrappedIsPassed(e: Accounts.HostError)
    ensures RejectedBy(e, Accounts.WrapValidationError(e))
  {
    hide Quote, SanitizeText;
  }

  /** The ordered maps that the accounts stand for. */
  predicate Stands(b: Backend, catalogs: Accounts.Catalogs) {
    Accounts.Mirrors(Alone(b.accounts), Accounts.MapWorld(catalogs, map[]))
  }

  /** What a script call comes to on the ordered maps alone. */
  predicate AnsweredByMap(h: Accounts.Host, user: string, call: Call, catalogs: Accounts.Catalogs,
      catalogs': Accounts.Catalogs, reply: Reply)
    requires call.IsScript() && !call.CheckScript?
  {
    var w := Accounts.MapWorld(catalogs, map[]);
    && catalogs' == Accounts.MapNext(h, w, StepOf(user, call)).catalogs
    && PassesOn(h, call, Accounts.MapAnswerOf(h, w, StepOf(user, call)), reply)
  }

  /** The answer to every script call, and what becomes of the account, are those of its ordered map. */
  lemma AnswerIsMaps(h: Accounts.Host, digest: string -> string, b: Backend, call: Call,
                     catalogs: Accounts.Catalogs) returns (catalogs': Accounts.Catalogs)
    requires call.IsScript() && !call.CheckScript? && Stands(b, catalogs)
    ensures var (b', reply) := Answer(h, digest, b, call);
            Stands(b', catalogs') && b'.user == b.user && AnsweredByMap(h, b.user, call, catalogs, catalogs', reply)
  {
    hide Answer, Accounts.Next, Accounts.MapNext, Accounts.AnswerOf, Accounts.MapAnswerOf, Accounts.Mirrors, PassesOn;
    var w, m := Alone(b.accounts), Accounts.MapWorld(catalogs, map[]);
    var step := StepOf(b.user, call);
    AnswerIsStep(h, digest, b, call);
    Accounts.NextMirrors(h, w, m, step);
    Accounts.AnswerMirrors(h, w, m, step);
    catalogs' := Accounts.MapNext(h, m, step).catalogs;
    NothingPending(h, w, m, step);
  }

  lemma NothingPending(h: Accounts.Host, w: Accounts.World, m: Accounts.MapWorld, step: Accounts.Step)
    requires w.pending == m.pending == map[] && !step.StepSnapshot?
    ensures Accounts.Next(h, w, step).pending == Accounts.MapNext(h, m, step).pending == map[]
  {
    hide Accounts.PutScript, Accounts.RenameScript, Accounts.AtomicSetActive, Accounts.DeleteScript,
         Accounts.ValidationError, Accounts.Switch, ScriptList.MapPut, ScriptList.MapDelete, ScriptList.MapRename,
         ScriptList.MapSeed, Accounts.MapAtomicSetActive, Accounts.AddScript;
  }
}
