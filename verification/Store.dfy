/**
  The in-memory script store (managesievemem/store.go): accounts whose scripts
  are changed in place. Each method is one critical section of the store's lock
  and is proved to do to the account's list what ScriptList says, leaving every
  other account alone.
 */
module Store {
  import opened Text
  import opened Protocol
  import opened ScriptList
  import opened Accounts

  class Script {
    var name: string
    var content: string
    var active: bool

    constructor (name: string, content: string, active: bool)
      ensures this.name == name && this.content == content && this.active == active
    {
      this.name, this.content, this.active := name, content, active;
    }

    ghost function View(): Record
      reads this
    {
      Record(name, content, active)
    }
  }

  class Account {
    const digest: string
    var scripts: seq<Script>

    ghost predicate Valid()
      reads this
    {
      forall i, j | 0 <= i < j < |scripts| :: scripts[i] != scripts[j]
    }

    ghost function View(): Records
      reads this, scripts
    {
      seq(|scripts|, i requires 0 <= i < |scripts| reads this, scripts => scripts[i].View())
    }

    constructor (digest: string)
      ensures Valid() && View() == [] && this.digest == digest && scripts == []
    {
      this.digest := digest;
      scripts := [];
    }

    /** The position of the script of that name, or the number of scripts. */
    method Find(name: string) returns (i: nat)
      ensures i == ScriptList.Find(View(), name)
    {
      i := 0;
      while i < |scripts|
        invariant i <= |scripts| && forall j | 0 <= j < i :: scripts[j].name != name
      {
        if scripts[i].name == name {
          break;
        }
        i := i + 1;
      }
      FindIs(View(), name, i);
    }

    static lemma {:induction false} FindIs(rs: Records, name: string, i: nat)
      requires i <= |rs| && (forall j | 0 <= j < i :: rs[j].name != name) && (i < |rs| ==> rs[i].name == name)
      ensures ScriptList.Find(rs, name) == i
    {
    }

    method DeactivateAll()
      requires Valid()
      modifies scripts
      ensures Valid() && View() == Deactivate(old(View()))
    {
      for k := 0 to |scripts|
        invariant forall i | 0 <= i < k :: scripts[i].View() == old(View())[i].(active := false)
        invariant forall i | k <= i < |scripts| :: scripts[i].View() == old(View())[i]
      {
        scripts[k].active := false;
      }
    }

    method SetActive(name: string) returns (e: Option<SessionError>)
      requires Valid()
      modifies scripts
      ensures Valid() && (View(), e) == Activate(old(View()), name)
    {
      if name == "" {
        DeactivateAll();
        return None;
      }
      var i := Find(name);
      if i == |scripts| {
        return Some(Nonexistent());
      }
      DeactivateAll();
      scripts[i].active := true;
      assert View() == Deactivate(old(View()))[i := old(View())[i].(active := true)];
      return None;
    }

    method Append(name: string, content: string, active: bool)
      requires Valid()
      modifies this
      ensures Valid() && View() == old(View()) + [Record(name, content, active)]
      ensures forall s | s in scripts :: s in old(scripts) || fresh(s)
    {
      var s := new Script(name, content, active);
      scripts := scripts + [s];
      assert View() == old(View()) + [Record(name, content, active)];
    }

    method Overwrite(i: nat, content: string, active: bool)
      requires Valid() && i < |scripts|
      modifies scripts
      ensures Valid() && View() == old(View())[i := Record(old(View())[i].name, content, active)]
    {
      scripts[i].content := content;
      scripts[i].active := active;
      assert View() == old(View())[i := Record(old(View())[i].name, content, active)];
    }

    method Put(name: string, content: string, maxScripts: int) returns (r: PutResult)
      requires Valid()
      modifies this, scripts
      ensures Valid() && (View(), r) == ScriptList.Put(old(View()), name, content, maxScripts)
      ensures forall s | s in scripts :: s in old(scripts) || fresh(s)
    {
      var i := Find(name);
      if i < |scripts| {
        scripts[i].content := content;
        assert View() == old(View())[i := old(View())[i].(content := content)];
        return Updated;
      }
      if maxScripts > 0 && |scripts| >= maxScripts {
        return Refused(Coded("QUOTA/MAXSCRIPTS", "Too many scripts for this account", false));
      }
      Append(name, content, false);
      return Stored;
    }

    method Delete(name: string) returns (e: Option<SessionError>)
      requires Valid()
      modifies this
      ensures Valid() && (View(), e) == ScriptList.Delete(old(View()), name)
      ensures forall s | s in scripts :: s in old(scripts)
    {
      var i := Find(name);
      if i == |scripts| {
        return Some(Nonexistent());
      }
      if scripts[i].active {
        return Some(Coded("ACTIVE", "Cannot delete the active script; deactivate it first", false));
      }
      scripts := scripts[..i] + scripts[i + 1..];
      assert View() == old(View())[..i] + old(View())[i + 1..];
      return None;
    }

    method Rename(oldName: string, newName: string) returns (e: Option<SessionError>)
      requires Valid()
      modifies scripts
      ensures Valid() && (View(), e) == ScriptList.Rename(old(View()), oldName, newName)
    {
      var i := Find(oldName);
      if i == |scripts| {
        return Some(Nonexistent());
      }
      var j := Find(newName);
      if j < |scripts| {
        return Some(Coded("ALREADYEXISTS", "A script with the new name already exists", false));
      }
      scripts[i].name := newName;
      assert View() == old(View())[i := old(View())[i].(name := newName)];
      return None;
    }

    method Seed(name: string, content: string, active: bool)
      requires Valid()
      modifies this, scripts
      ensures Valid() && View() == ScriptList.Seed(old(View()), name, content, active)
      ensures forall s | s in scripts :: s in old(scripts) || fresh(s)
    {
      hide Deactivate, ScriptList.Find;
      if active {
        DeactivateAll();
      }
      var i := Find(name);
      if i < |scripts| {
        Overwrite(i, content, active);
        return;
      }
      Append(name, content, active);
    }
  }

  class Store {
    const host: Host
    var accounts: map<string, Account>
    ghost var Repr: set<object>

    /** Everything the store reaches is its own. */
    ghost predicate Owned()
      reads this, Repr
    {
      && this in Repr
      && forall u | u in accounts ::
           accounts[u] in Repr && accounts[u].Valid() && forall s | s in accounts[u].scripts :: s in Repr
    }

    /** Accounts share no memory, so a change of one leaves the others alone. */
    ghost predicate Apart()
      requires Owned()
      reads this, Repr
    {
      forall u, v | u in accounts && v in accounts && u != v ::
        accounts[u] != accounts[v] && forall s | s in accounts[u].scripts :: s !in accounts[v].scripts
    }

    ghost predicate Valid()
      reads this, Repr
    {
      Owned() && Apart()
    }

    ghost function View(): AccountMap
      requires Valid()
      reads this, Repr
    {
      map u | u in accounts :: AccountValue(accounts[u].digest, accounts[u].View())
    }

    /** A change within one account leaves the lists of all others as they were. */
    twostate lemma OthersKept(user: string)
      requires old(Valid()) && user in old(accounts) && accounts == old(accounts) && old(Repr) <= Repr
      requires forall o: object | o in old(Repr) && o != this && o != accounts[user]
               && o !in old(accounts[user].scripts) ::
                 unchanged(o)
      ensures forall v | v in accounts && v != user ::
                accounts[v].scripts == old(accounts[v].scripts) && accounts[v].View() == old(accounts[v].View())
                && accounts[v].Valid()
    {
      forall v | v in accounts && v != user
        ensures accounts[v].scripts == old(accounts[v].scripts) && accounts[v].View() == old(accounts[v].View())
                && accounts[v].Valid()
      {
        var a := accounts[v];
        assert unchanged(a);
        assert forall s | s in a.scripts :: unchanged(s);
        assert forall i | 0 <= i < |a.scripts| ::
            a.scripts[i] in old(a.scripts) && a.scripts[i].View() == old(a.scripts[i].View());
      }
    }

    twostate lemma StaysValid(user: string)
      requires old(Valid()) && user in old(accounts) && accounts == old(accounts) && old(Repr) <= Repr
      requires forall o: object | o in old(Repr) && o != this && o != accounts[user]
               && o !in old(accounts[user].scripts) ::
                 unchanged(o)
      requires accounts[user].Valid()
      requires forall s | s in accounts[user].scripts :: s in Repr && (s in old(accounts[user].scripts) || fresh(s))
      ensures Valid()
    {
      OthersKept(user);
      assert Owned();
    }

    /** The account itself holds valid scripts, old ones of its own or new ones. */
    twostate lemma OneChanged(user: string)
      requires old(Valid()) && user in old(accounts) && accounts == old(accounts) && old(Repr) <= Repr
      requires forall o: object | o in old(Repr) && o != this && o != accounts[user]
               && o !in old(accounts[user].scripts) ::
                 unchanged(o)
      requires accounts[user].Valid()
      requires forall s | s in accounts[user].scripts :: s in Repr && (s in old(accounts[user].scripts) || fresh(s))
      ensures Valid() && View() == WithScripts(old(View()), user, accounts[user].View())
    {
      hide Valid, Apart, Owned, Account.View, Account.Valid;
      OthersKept(user);
      StaysValid(user);
      var before, after := old(View()), View();
      assert after.Keys == before.Keys;
      forall v | v in after && v != user ensures after[v] == before[v] {
        assert after[v] == AccountValue(accounts[v].digest, accounts[v].View());
      }
    }

    constructor (host: Host)
      ensures Valid() && View() == map[] && this.host == host && fresh(Repr)
    {
      this.host := host;
      accounts := map[];
      Repr := {this};
    }

    method AddUser(user: string, digest: string)
      requires Valid()
      modifies Repr
      ensures Valid() && fresh(Repr - old(Repr)) && View() == Accounts.AddUser(old(View()), user, digest)
    {
      var a := new Account(digest);
      accounts := accounts[user := a];
      Repr := Repr + {a};
      AccountAdded(user, a);
    }

    twostate lemma AddedKeepsOthers(user: string, new a: Account)
      requires old(Valid()) && accounts == old(accounts)[user := a] && Repr == old(Repr) + {a}
      requires fresh(a) && a.Valid() && a.scripts == []
      requires forall o: object | o in old(Repr) && o != this :: unchanged(o)
      ensures forall v | v in accounts && v != user ::
                accounts[v].scripts == old(accounts[v].scripts) && accounts[v].View() == old(accounts[v].View())
                && accounts[v].Valid()
    {
      forall v | v in accounts && v != user
        ensures accounts[v].scripts == old(accounts[v].scripts) && accounts[v].View() == old(accounts[v].View())
                && accounts[v].Valid()
      {
        var b := accounts[v];
        assert unchanged(b);
        assert forall s | s in b.scripts :: unchanged(s);
        assert forall i | 0 <= i < |b.scripts| ::
            b.scripts[i] in old(b.scripts) && b.scripts[i].View() == old(b.scripts[i].View());
      }
    }

    twostate lemma AddedValid(user: string, new a: Account)
      requires old(Valid()) && accounts == old(accounts)[user := a] && Repr == old(Repr) + {a}
      requires fresh(a) && a.Valid() && a.scripts == []
      requires forall o: object | o in old(Repr) && o != this :: unchanged(o)
      ensures Valid()
    {
      AddedKeepsOthers(user, a);
      assert Owned();
    }

    static lemma NoScripts(a: Account)
      requires a.scripts == []
      ensures a.View() == []
    {
    }

    twostate lemma AccountAdded(user: string, new a: Account)
      requires old(Valid()) && accounts == old(accounts)[user := a] && Repr == old(Repr) + {a}
      requires fresh(a) && a.Valid() && a.scripts == []
      requires forall o: object | o in old(Repr) && o != this :: unchanged(o)
      ensures Valid() && View() == Accounts.AddUser(old(View()), user, a.digest)
    {
      hide Valid, Apart, Owned, Account.View, Account.Valid;
      AddedKeepsOthers(user, a);
      AddedValid(user, a);
      assert a.View() == [] by { NoScripts(a); }
      var before, after := old(View()), View();
      assert after.Keys == before.Keys + {user};
      forall v | v in after && v != user ensures after[v] == before[v] {
        assert after[v] == AccountValue(accounts[v].digest, accounts[v].View());
      }
    }

    /** Reads only: the content SETACTIVE goes on to validate without the lock. */
    method Snapshot(user: string, name: string) returns (content: Option<string>, e: Option<SessionError>)
      requires Valid()
      ensures (content, e) == Accounts.Snapshot(View(), user, name)
    {
      if user !in accounts {
        return None, Some(CloseConnection);
      }
      var a := accounts[user];
      var i := a.Find(name);
      if i == |a.scripts| {
        return None, Some(Nonexistent());
      }
      return Some(a.scripts[i].content), None;
    }

    method HasSpace(user: string, name: string) returns (e: Option<SessionError>)
      requires Valid()
      ensures e == Accounts.HasSpace(host, View(), user, name)
    {
      if user !in accounts {
        return Some(CloseConnection);
      }
      var a := accounts[user];
      if host.maxScripts > 0 {
        var i := a.Find(name);
        if i == |a.scripts| && |a.scripts| >= host.maxScripts {
          return Some(Coded("QUOTA/MAXSCRIPTS", "Maximum number of scripts reached", false));
        }
      }
      return None;
    }

    method Switch(user: string, name: string) returns (e: Option<SessionError>)
      requires Valid()
      modifies Repr
      ensures Valid() && Repr == old(Repr) && (View(), e) == Accounts.Switch(old(View()), user, name)
    {
      hide Activate;
      if user !in accounts {
        return Some(CloseConnection);
      }
      var a := accounts[user];
      e := a.SetActive(name);
      OneChanged(user);
    }

    method PutScript(user: string, name: string, content: string) returns (r: PutResult)
      requires Valid()
      modifies Repr
      ensures Valid() && fresh(Repr - old(Repr))
              && (View(), r) == Accounts.PutScript(host, old(View()), user, name, content)
    {
      hide Put, WrapValidationError;
      var invalid := ValidationError(host, content);
      if invalid != None {
        return Refused(invalid.value);
      }
      if user !in accounts {
        return Refused(CloseConnection);
      }
      var a := accounts[user];
      r := a.Put(name, content, host.maxScripts);
      Repr := Repr + set s | s in a.scripts;
      OneChanged(user);
    }

    method DeleteScript(user: string, name: string) returns (e: Option<SessionError>)
      requires Valid()
      modifies Repr
      ensures Valid() && Repr == old(Repr) && (View(), e) == Accounts.DeleteScript(old(View()), user, name)
    {
      hide Delete;
      if user !in accounts {
        return Some(CloseConnection);
      }
      var a := accounts[user];
      e := a.Delete(name);
      OneChanged(user);
    }

    method RenameScript(user: string, oldName: string, newName: string) returns (e: Option<SessionError>)
      requires Valid()
      modifies Repr
      ensures Valid() && Repr == old(Repr) && (View(), e) == Accounts.RenameScript(old(View()), user, oldName, newName)
    {
      hide Rename;
      if user !in accounts {
        return Some(CloseConnection);
      }
      var a := accounts[user];
      e := a.Rename(oldName, newName);
      OneChanged(user);
    }

    method AddScript(user: string, name: string, content: string, active: bool)
      requires Valid()
      modifies Repr
      ensures Valid() && fresh(Repr - old(Repr))
              && View() == Accounts.AddScript(old(View()), user, name, content, active)
    {
      hide Seed;
      if user !in accounts {
        return;
      }
      var a := accounts[user];
      a.Seed(name, content, active);
      Repr := Repr + set s | s in a.scripts;
      OneChanged(user);
    }

    /** SETACTIVE, uninterrupted: snapshot, validation outside the lock, switch. */
    method SetActive(user: string, name: string) returns (e: Option<SessionError>)
      requires Valid()
      modifies Repr
      ensures Valid() && (View(), e) == AtomicSetActive(host, old(View()), user, name)
    {
      hide Accounts.Switch, Accounts.Snapshot, ValidationError;
      if name == "" {
        e := Switch(user, name);
        return;
      }
      var content;
      content, e := Snapshot(user, name);
      if e != None {
        return;
      }
      SnapshotHasContent(View(), user, name);
      e := ValidationError(host, content.value);
      if e != None {
        return;
      }
      e := Switch(user, name);
    }

    static lemma SnapshotHasContent(accounts: AccountMap, user: string, name: string)
      ensures Accounts.Snapshot(accounts, user, name).1 == None ==> Accounts.Snapshot(accounts, user, name).0.Some?
    {
    }
  }
}
