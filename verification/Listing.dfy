/**
  LISTSCRIPTS end to end: at any point of any run against the store, a client
  reads exactly the names its account holds, and which of them is active.
 */
module Listing {
  import opened Text
  import opened LineReader
  import opened Protocol
  import opened ConnSpec
  import opened Effects
  import opened Serving
  import opened TraceSafety
  import opened Framing
  import opened Outcomes
  import opened StoreSession
  import opened EndToEnd
  import opened Histories
  import Accounts
  import Logins
  import Responses
  import ScriptList

  // ---------------------------------------------------------------------
  // The names in the store

  predicate Named(rs: ScriptList.Records) {
    forall i | 0 <= i < |rs| :: ValidateScriptName(rs[i].name) == None
  }

  predicate AllNamed(accounts: Accounts.AccountMap) {
    forall user | user in accounts :: Named(accounts[user].scripts)
  }

  lemma ListKeepsNames(rs: ScriptList.Records, name: string, newName: string, content: string, maxScripts: int)
    requires Named(rs)
    ensures Named(ScriptList.Activate(rs, name).0) && Named(ScriptList.Delete(rs, name).0)
    ensures ValidateScriptName(name) == None ==> Named(ScriptList.Put(rs, name, content, maxScripts).0)
    ensures ValidateScriptName(newName) == None ==> Named(ScriptList.Rename(rs, name, newName).0)
  {
    hide ScriptList.Find, ValidateScriptName;
  }

  lemma ReplacedKeepsNames(accounts: Accounts.AccountMap, user: string, rs: ScriptList.Records)
    requires AllNamed(accounts) && user in accounts && Named(rs)
    ensures AllNamed(Accounts.WithScripts(accounts, user, rs))
  {
    hide Named;
  }

  /** What a call does to the accounts. */
  function Stored(h: Accounts.Host, b: Backend, call: Call): Accounts.AccountMap {
    match call
    case PutScript(name, content) => Accounts.PutScript(h, b.accounts, b.user, name, content).0
    case RenameScript(oldName, newName) => Accounts.RenameScript(b.accounts, b.user, oldName, newName).0
    case SetActive(name) => Accounts.AtomicSetActive(h, b.accounts, b.user, name).0
    case DeleteScript(name) => Accounts.DeleteScript(b.accounts, b.user, name).0
    case _ => b.accounts
  }

  lemma AnswerStores(h: Accounts.Host, digest: string -> string, b: Backend, call: Call)
    ensures Answer(h, digest, b, call).0.accounts == Stored(h, b, call)
    ensures !call.IsAuth() ==> Answer(h, digest, b, call).0.user == b.user
  {
    hide Accounts.PutScript, Accounts.RenameScript, Accounts.AtomicSetActive, Accounts.DeleteScript, Accounts.HasSpace,
         Accounts.Snapshot, Accounts.ValidationError, Quote;
  }

  /** No checked call leaves a name in the store that the library would not accept. */
  lemma CallKeepsNames(h: Accounts.Host, b: Backend, call: Call)
    requires AllNamed(b.accounts) && NameChecked(call) && b.user in b.accounts
    ensures AllNamed(Stored(h, b, call))
  {
    hide Named, AllNamed, Accounts.ValidationError, Accounts.Snapshot, Accounts.WithScripts, ScriptList.Activate,
         ScriptList.Put, ScriptList.Delete, ScriptList.Rename, ValidateScriptName;
    var rs := b.accounts[b.user].scripts;
    assert Named(rs) by { UserNamed(b.accounts, b.user); }
    match call
    case PutScript(name, content) =>
      ListKeepsNames(rs, name, "", content, h.maxScripts);
      ReplacedKeepsNames(b.accounts, b.user, ScriptList.Put(rs, name, content, h.maxScripts).0);
    case RenameScript(oldName, newName) =>
      ListKeepsNames(rs, oldName, newName, "", 0);
      ReplacedKeepsNames(b.accounts, b.user, ScriptList.Rename(rs, oldName, newName).0);
    case SetActive(name) =>
      ListKeepsNames(rs, name, "", "", 0);
      ReplacedKeepsNames(b.accounts, b.user, ScriptList.Activate(rs, name).0);
    case DeleteScript(name) =>
      ListKeepsNames(rs, name, "", "", 0);
      ReplacedKeepsNames(b.accounts, b.user, ScriptList.Delete(rs, name).0);
    case _ =>
  }

  lemma NobodyStores(h: Accounts.Host, b: Backend, call: Call)
    requires b.user !in b.accounts
    ensures Stored(h, b, call) == b.accounts
  {
    hide Accounts.ValidationError;
  }

  lemma AnswerKeepsNames(h: Accounts.Host, digest: string -> string, b: Backend, call: Call)
    requires AllNamed(b.accounts) && NameChecked(call)
    ensures AllNamed(Answer(h, digest, b, call).0.accounts)
  {
    hide AllNamed, Answer, Stored, NameChecked;
    AnswerStores(h, digest, b, call);
    if b.user in b.accounts {
      CallKeepsNames(h, b, call);
    } else {
      NobodyStores(h, b, call);
    }
  }

  lemma UserNamed(accounts: Accounts.AccountMap, user: string)
    requires AllNamed(accounts) && user in accounts
    ensures Named(accounts[user].scripts)
  {
    hide Named;
  }

  /** Over every run, only names the library accepts are stored through the server. */
  lemma {:induction false} ReplayKeepsNames(h: Accounts.Host, digest: string -> string, start: Backend, t: seq<Event>)
    requires AllNamed(start.accounts) && NamesChecked(t)
    ensures AllNamed(Replay(h, digest, start, t).accounts)
    decreases |t|
  {
    hide AllNamed, Answer;
    if t != [] {
      var front, e := t[..|t| - 1], t[|t| - 1];
      assert NamesChecked(front) by { hide NameChecked; }
      ReplayKeepsNames(h, digest, start, front);
      if e.Called? {
        assert NameChecked(e.call) by { OthersNameNothing(e.call); }
        AnswerKeepsNames(h, digest, Replay(h, digest, start, front), e.call);
      }
    }
  }

  lemma OthersNameNothing(call: Call)
    ensures !call.IsScript() ==> NameChecked(call)
  {
  }

  // ---------------------------------------------------------------------
  // The listing

  lemma ListIsAsked(env: Env, c: ClientCommand)
    requires Says(c, "LISTSCRIPTS")
    ensures IsScriptName(ToUpper(c.verb)) && WantedScript(env, ToUpper(c.verb), Values(c.args)) == Ask(ListScripts)
  {
    hide Values, ToUpper;
  }

  lemma ListAnswers(h: Accounts.Host, digest: string -> string, b: Backend)
    requires b.user in b.accounts
    ensures var (b', reply) := Answer(h, digest, b, ListScripts);
            b' == b && reply.error == None && reply.scripts == Accounts.ListOf(b.accounts[b.user].scripts)
  {
  }

  /** What a client reads behind go-aheads is exactly the list of b's user. */
  ghost predicate ShowsList(b: Backend, st: State, s: State) {
    && b.user in b.accounts && |st.output| <= |s.output|
    && exists rs: seq<Responses.Response> ::
         && Hears(Heard(st, s), rs, false)
         && Responses.ReadListing(rs) == Some(Accounts.ListOf(b.accounts[b.user].scripts))
  }

  lemma ReplyShows(env: Env, b: Backend, st: State, s: State, reply: Reply)
    requires b.user in b.accounts && Named(b.accounts[b.user].scripts)
    requires reply.error == None && reply.scripts == Accounts.ListOf(b.accounts[b.user].scripts)
    requires ReadsReply(env, st, s, ListScripts, reply)
    ensures ShowsList(b, st, s)
  {
    hide Heard, Hears, Responses.ReadListing, ValidateScriptName, RefusalRead;
    assert Responses.AllValid(reply.scripts);
    var rs :| AnswerRead(env.options, ListScripts, reply, rs) && Hears(Heard(st, s), rs, false);
  }

  /**
    At any loop head of any run against the store, whatever happened before,
    LISTSCRIPTS shows an authenticated client exactly the names of its account,
    in order, and which one is active: reading the bytes it gets gives that list.
   */
  lemma StoredListIsListed(env: Env, h: Accounts.Host, digest: string -> string, start: Backend, isTLS: bool,
                           input: Stream, k: nat, st: State, c: ClientCommand, t: string)
    requires BackedBy(env, h, digest, start) && AllNamed(start.accounts)
    requires AtHead(env, isTLS, input, k) == Some(st) && st.authenticated
    requires Says(c, "LISTSCRIPTS") && Admissible(env, c) && st.input.data == Encode(c) + t
    ensures var (s, more) := Iterate(env, st);
            more && s.input.data == t && ShowsList(Replay(h, digest, start, st.trace), st, s)
  {
    hide Iterate, Encode, Admissible, AtHead, Tracked, Faithful, AllNamed, Replay, WithinBudget, NamesChecked,
         LoginIsFinal, Authenticated, ShowsList, Named, Accounts.ListOf, ReadsReply, ToUpper, Values, IsScriptName,
         WantedScript, Answer, Logins.SameOwners, Logins.LetIn, BackedBy;
    HeadFacts(env, isTLS, input, k, st);
    Logins.LoggedInIsKnown(env, h, digest, start, st.trace);
    ReplayKeepsNames(h, digest, start, st.trace);
    var b := Replay(h, digest, start, st.trace);
    UserNamed(b.accounts, b.user);
    ListAnswers(h, digest, b);
    ListIsAsked(env, c);
    CommandIsStored(env, h, digest, start, st, c, ListScripts, t);
    ReplyShows(env, b, st, Iterate(env, st).0, Answer(h, digest, b, ListScripts).1);
  }
}
