/**
  Who a connection is logged in as, over whole runs against the store
  (managesievemem/store.go).
 */
module Logins {
  import opened Text
  import opened LineReader
  import opened Protocol
  import opened ConnSpec
  import opened Effects
  import opened TraceSafety
  import opened StoreSession
  import opened EndToEnd
  import opened Histories
  import Accounts
  import ScriptList

  /** The same accounts, each with the password it had. */
  predicate SameOwners(a: Accounts.AccountMap, b: Accounts.AccountMap) {
    a.Keys == b.Keys && forall user | user in a :: a[user].digest == b[user].digest
  }

  lemma AnswerKeepsOwners(h: Accounts.Host, digest: string -> string, b: Backend, call: Call)
    ensures SameOwners(b.accounts, Answer(h, digest, b, call).0.accounts)
    ensures !call.IsAuth() ==> Answer(h, digest, b, call).0.user == b.user
  {
    hide Accounts.ValidationError, ScriptList.Activate, ScriptList.Put, ScriptList.Delete, ScriptList.Rename,
         Accounts.HasSpace, Accounts.Snapshot, Accounts.ListOf, Quote;
  }

  /** No command of a connection adds an account, removes one or changes a password. */
  lemma {:induction false} ReplayKeepsOwners(h: Accounts.Host, digest: string -> string, start: Backend, t: seq<Event>,
      n: nat)
    requires n <= |t|
    ensures SameOwners(Replay(h, digest, start, t[..n]).accounts, Replay(h, digest, start, t).accounts)
    decreases |t|
  {
    hide Answer;
    if n == |t| {
      assert t[..n] == t;
    } else {
      var front := t[..|t| - 1];
      assert front[..n] == t[..n];
      ReplayKeepsOwners(h, digest, start, front, n);
      if t[|t| - 1].Called? {
        AnswerKeepsOwners(h, digest, Replay(h, digest, start, front), t[|t| - 1].call);
      }
    }
  }

  lemma {:induction false} UserStays(h: Accounts.Host, digest: string -> string, start: Backend, t: seq<Event>, n: nat)
    requires n <= |t| && forall j | n <= j < |t| :: !IsAuthCall(t[j])
    ensures Replay(h, digest, start, t).user == Replay(h, digest, start, t[..n]).user
    decreases |t|
  {
    hide Answer;
    if n == |t| {
      assert t[..n] == t;
    } else {
      var front := t[..|t| - 1];
      assert front[..n] == t[..n];
      UserStays(h, digest, start, front, n);
      if t[|t| - 1].Called? {
        AnswerKeepsOwners(h, digest, Replay(h, digest, start, front), t[|t| - 1].call);
      }
    }
  }

  /** The i-th event let in the user of b, who gave the password of that account. */
  predicate LetIn(digest: string -> string, b: Backend, t: seq<Event>, i: int) {
    LoggedIn(t, i) && Claimed(t[i].call).0 == b.user && Grants(b.accounts, digest, t[i].call)
  }

  /**
    Whoever is logged in has an account, and has given its password: the history
    holds the one call that did so, under that user's name.
   */
  lemma LoggedInIsKnown(env: Env, h: Accounts.Host, digest: string -> string, start: Backend, t: seq<Event>)
    requires BackedBy(env, h, digest, start) && Faithful(env, t) && LoginIsFinal(t) && Authenticated(t)
    ensures var b := Replay(h, digest, start, t);
            b.user in b.accounts && SameOwners(start.accounts, b.accounts) && exists i :: LetIn(digest, b, t, i)
  {
    hide Answer, Replay, Quote;
    var i :| LoggedIn(t, i);
    var call := t[i].call;
    assert t[..i + 1] == t[..i] + [Called(call, true)];
    assert Replied(env, t[..i], call, true);
    var before, after := Replay(h, digest, start, t[..i]), Replay(h, digest, start, t[..i + 1]);
    assert env.session(t[..i], call) == Answer(h, digest, before, call).1;
    LoginIsChecked(h, digest, before, call);
    ReplayCall(h, digest, start, t[..i], call, true);
    UserStays(h, digest, start, t, i + 1);
    ReplayKeepsOwners(h, digest, start, t, i + 1);
    ReplayKeepsOwners(h, digest, start, t, 0);
    assert Replay(h, digest, start, t[..0]) == start by { ReplayNothing(h, digest, start, t); }
    assert LetIn(digest, Replay(h, digest, start, t), t, i);
  }

  lemma ReplayNothing(h: Accounts.Host, digest: string -> string, start: Backend, t: seq<Event>)
    ensures Replay(h, digest, start, t[..0]) == start
  {
  }

  /** So at any loop head of any run, whatever else was tried before. */
  lemma HeadIsOwned(env: Env, h: Accounts.Host, digest: string -> string, start: Backend, isTLS: bool, input: Stream,
                    k: nat, st: State)
    requires BackedBy(env, h, digest, start) && AtHead(env, isTLS, input, k) == Some(st) && st.authenticated
    ensures var b := Replay(h, digest, start, st.trace);
            b.user in b.accounts && SameOwners(start.accounts, b.accounts)
            && exists i :: LetIn(digest, b, st.trace, i)
  {
    hide AtHead, Replay, Tracked, Faithful, LoginIsFinal, Authenticated, LetIn, BackedBy;
    HeadFacts(env, isTLS, input, k, st);
    LoggedInIsKnown(env, h, digest, start, st.trace);
  }
}
