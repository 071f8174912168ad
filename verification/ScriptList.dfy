/**
  The scripts of one account as a value: the list the store keeps in place, and
  the ordered map with at most one active name that it stands for
  (managesievemem/store.go).
 */
module ScriptList {
  import opened Text
  import opened Protocol

  datatype Record = Record(name: string, content: string, active: bool)

  type Records = seq<Record>

  // ---------------------------------------------------------------------
  // The operations on the list

  /** account.find: the position of the first script of that name, or |rs|. */
  function Find(rs: Records, name: string): (i: nat)
    ensures i <= |rs|
    ensures forall j | 0 <= j < i :: rs[j].name != name
    ensures i < |rs| ==> rs[i].name == name
  {
    if rs == [] then 0 else if rs[0].name == name then 0 else 1 + Find(rs[1..], name)
  }

  predicate Has(rs: Records, name: string) {
    Find(rs, name) < |rs|
  }

  function Deactivate(rs: Records): (r: Records)
    ensures |r| == |rs|
    ensures forall i | 0 <= i < |rs| :: r[i] == rs[i].(active := false)
  {
    seq(|rs|, i requires 0 <= i < |rs| => rs[i].(active := false))
  }

  function Nonexistent(): SessionError {
    Coded("NONEXISTENT", "Script does not exist", false)
  }

  function Activate(rs: Records, name: string): (Records, Option<SessionError>) {
    if name == "" then (Deactivate(rs), None)
    else if !Has(rs, name) then (rs, Some(Nonexistent()))
    else
      var i := Find(rs, name);
      (Deactivate(rs)[i := rs[i].(active := true)], None)
  }

  predicate OverQuota(rs: Records, name: string, maxScripts: int) {
    maxScripts > 0 && !Has(rs, name) && |rs| >= maxScripts
  }

  datatype PutResult = Stored | Updated | Refused(error: SessionError)

  function Put(rs: Records, name: string, content: string, maxScripts: int): (Records, PutResult) {
    if Has(rs, name) then
      var i := Find(rs, name);
      (rs[i := rs[i].(content := content)], Updated)
    else if OverQuota(rs, name, maxScripts) then
      (rs, Refused(Coded("QUOTA/MAXSCRIPTS", "Too many scripts for this account", false)))
    else (rs + [Record(name, content, false)], Stored)
  }

  function HaveSpace(rs: Records, name: string, maxScripts: int): Option<SessionError> {
    if OverQuota(rs, name, maxScripts) then
      Some(Coded("QUOTA/MAXSCRIPTS", "Maximum number of scripts reached", false))
    else None
  }

  function Delete(rs: Records, name: string): (Records, Option<SessionError>) {
    if !Has(rs, name) then (rs, Some(Nonexistent()))
    else
      var i := Find(rs, name);
      if rs[i].active then (rs, Some(Coded("ACTIVE", "Cannot delete the active script; deactivate it first", false)))
      else (rs[..i] + rs[i + 1..], None)
  }

  function Rename(rs: Records, oldName: string, newName: string): (Records, Option<SessionError>) {
    if !Has(rs, oldName) then (rs, Some(Nonexistent()))
    else if Has(rs, newName) then (rs, Some(Coded("ALREADYEXISTS", "A script with the new name already exists", false)))
    else
      var i := Find(rs, oldName);
      (rs[i := rs[i].(name := newName)], None)
  }

  /** Seeding: an active seed deactivates whatever was active. */
  function Seed(rs: Records, name: string, content: string, active: bool): Records {
    var cleared := if active then Deactivate(rs) else rs;
    if Has(cleared, name) then cleared[Find(cleared, name) := Record(name, content, active)]
    else cleared + [Record(name, content, active)]
  }

  // ---------------------------------------------------------------------
  // The ordered map it stands for

  /** Names in order, contents by name, and the active name if there is one. */
  datatype Catalog = Catalog(order: seq<string>, contents: map<string, string>, active: Option<string>)

  /** The first position of name in order, or |order|. */
  function Place(order: seq<string>, name: string): (i: nat)
    ensures i <= |order|
  {
    if order == [] then 0 else if order[0] == name then 0 else 1 + Place(order[1..], name)
  }

  function Without(order: seq<string>, name: string): seq<string> {
    var i := Place(order, name);
    if i == |order| then order else order[..i] + order[i + 1..]
  }

  function Renamed(order: seq<string>, oldName: string, newName: string): seq<string> {
    var i := Place(order, oldName);
    if i == |order| then order else order[i := newName]
  }

  // The operations on the ordered map

  function MapActivate(c: Catalog, name: string): (Catalog, Option<SessionError>) {
    if name == "" then (c.(active := None), None)
    else if name in c.contents then (c.(active := Some(name)), None)
    else (c, Some(Nonexistent()))
  }

  function MapPut(c: Catalog, name: string, content: string, maxScripts: int): (Catalog, PutResult) {
    if name in c.contents then (c.(contents := c.contents[name := content]), Updated)
    else if maxScripts > 0 && |c.order| >= maxScripts then
      (c, Refused(Coded("QUOTA/MAXSCRIPTS", "Too many scripts for this account", false)))
    else (c.(order := c.order + [name], contents := c.contents[name := content]), Stored)
  }

  function MapDelete(c: Catalog, name: string): (Catalog, Option<SessionError>) {
    if name !in c.contents then (c, Some(Nonexistent()))
    else if c.active == Some(name) then
      (c, Some(Coded("ACTIVE", "Cannot delete the active script; deactivate it first", false)))
    else (Catalog(Without(c.order, name), c.contents - {name}, c.active), None)
  }

  function MapRename(c: Catalog, oldName: string, newName: string): (Catalog, Option<SessionError>) {
    if oldName !in c.contents then (c, Some(Nonexistent()))
    else if newName in c.contents then
      (c, Some(Coded("ALREADYEXISTS", "A script with the new name already exists", false)))
    else
      (Catalog(Renamed(c.order, oldName, newName),
               (c.contents - {oldName})[newName := c.contents[oldName]],
               if c.active == Some(oldName) then Some(newName) else c.active), None)
  }

  function MapSeed(c: Catalog, name: string, content: string, active: bool): Catalog {
    Catalog(if name in c.contents then c.order else c.order + [name],
            c.contents[name := content],
            if active then Some(name) else if c.active == Some(name) then None else c.active)
  }

  predicate UniqueNames(rs: Records) {
    forall i, j | 0 <= i < j < |rs| :: rs[i].name != rs[j].name
  }

  predicate AtMostOneActive(rs: Records) {
    forall i, j | 0 <= i < j < |rs| :: !(rs[i].active && rs[j].active)
  }

  predicate WellFormed(rs: Records) {
    UniqueNames(rs) && AtMostOneActive(rs)
  }

  predicate SameOrder(rs: Records, order: seq<string>) {
    |order| == |rs| && forall i | 0 <= i < |rs| :: order[i] == rs[i].name
  }

  predicate SameContents(rs: Records, contents: map<string, string>) {
    && (forall i | 0 <= i < |rs| :: rs[i].name in contents && contents[rs[i].name] == rs[i].content)
    && (forall name | name in contents :: Has(rs, name))
  }

  predicate SameActive(rs: Records, active: Option<string>) {
    && (forall i | 0 <= i < |rs| :: rs[i].active <==> active == Some(rs[i].name))
    && (active.Some? ==> Has(rs, active.value))
  }

  /** rs stands for c: same names in order, same contents, same active script. */
  predicate Represents(rs: Records, c: Catalog) {
    WellFormed(rs) && SameOrder(rs, c.order) && SameContents(rs, c.contents) && SameActive(rs, c.active)
  }

  lemma FindAt(rs: Records, i: nat)
    requires i < |rs| && UniqueNames(rs)
    ensures Find(rs, rs[i].name) == i && Has(rs, rs[i].name)
  {
  }

  lemma HasAt(rs: Records, i: nat)
    requires i < |rs|
    ensures Has(rs, rs[i].name)
  {
  }

  lemma HasIffMapped(rs: Records, c: Catalog, name: string)
    requires SameContents(rs, c.contents)
    ensures Has(rs, name) <==> name in c.contents
  {
  }

  /** Names present are preserved when every record keeps its name. */
  lemma SameNamesHas(rs: Records, rs': Records, name: string)
    requires |rs| == |rs'| && (forall i | 0 <= i < |rs| :: rs[i].name == rs'[i].name)
    requires Has(rs, name)
    ensures Has(rs', name)
  {
    HasAt(rs', Find(rs, name));
  }

  lemma {:induction false} DeactivateFinds(rs: Records, name: string)
    ensures Find(Deactivate(rs), name) == Find(rs, name)
  {
    if rs != [] {
      DeactivateFinds(rs[1..], name);
      assert Deactivate(rs)[1..] == Deactivate(rs[1..]);
    }
  }

  lemma {:induction false} PlaceIsFind(rs: Records, order: seq<string>, name: string)
    requires SameOrder(rs, order)
    ensures Place(order, name) == Find(rs, name)
    decreases |rs|
  {
    if rs != [] {
      PlaceIsFind(rs[1..], order[1..], name);
    }
  }

  // SETACTIVE

  /** A list that differs in its active flags only stands for the same names and contents. */
  lemma FlagsOnly(rs: Records, rs': Records, c: Catalog)
    requires Represents(rs, c) && |rs| == |rs'|
    requires forall i | 0 <= i < |rs| :: rs'[i].name == rs[i].name && rs'[i].content == rs[i].content
    ensures UniqueNames(rs') && SameOrder(rs', c.order) && SameContents(rs', c.contents)
  {
    forall n | n in c.contents ensures Has(rs', n) {
      SameNamesHas(rs, rs', n);
    }
  }

  /** SETACTIVE changes which name is active and nothing else. */
  lemma ActivateRefines(rs: Records, c: Catalog, name: string)
    requires Represents(rs, c)
    ensures Activate(rs, name).1 == MapActivate(c, name).1
    ensures Represents(Activate(rs, name).0, MapActivate(c, name).0)
  {
    hide SameContents, SameOrder, Find;
    var rs' := Activate(rs, name).0;
    HasIffMapped(rs, c, name);
    if name == "" || Has(rs, name) {
      FlagsOnly(rs, rs', c);
      if name != "" {
        SameNamesHas(rs, rs', name);
        forall i | 0 <= i < |rs'| ensures rs'[i].active <==> name == rs'[i].name {
          FindAt(rs, i);
        }
      }
    }
  }

  // PUTSCRIPT

  lemma UpdateRefines(rs: Records, c: Catalog, i: nat, content: string)
    requires Represents(rs, c) && i < |rs|
    ensures Represents(rs[i := rs[i].(content := content)], c.(contents := c.contents[rs[i].name := content]))
  {
    hide Find;
    var rs' := rs[i := rs[i].(content := content)];
    forall n | n in c.contents[rs[i].name := content] ensures Has(rs', n) {
      HasAt(rs, i);
      SameNamesHas(rs, rs', n);
    }
    if c.active.Some? {
      SameNamesHas(rs, rs', c.active.value);
    }
  }

  lemma AppendHas(rs: Records, r: Record, name: string)
    requires Has(rs, name) || name == r.name
    ensures Has(rs + [r], name)
  {
    var rs' := rs + [r];
    HasAt(rs', if Has(rs, name) then Find(rs, name) else |rs|);
  }

  lemma StoreRefines(rs: Records, c: Catalog, name: string, content: string)
    requires Represents(rs, c) && !Has(rs, name)
    ensures Represents(rs + [Record(name, content, false)],
                       c.(order := c.order + [name], contents := c.contents[name := content]))
  {
    hide Has;
    var r := Record(name, content, false);
    var rs' := rs + [r];
    forall i | 0 <= i < |rs| ensures rs[i].name != name {
      HasAt(rs, i);
    }
    forall n | n in c.contents[name := content] ensures Has(rs', n) {
      AppendHas(rs, r, n);
    }
    if c.active.Some? {
      AppendHas(rs, r, c.active.value);
    }
  }

  /** PUTSCRIPT binds the name, keeping its place and the active script; a new name goes last. */
  lemma PutRefines(rs: Records, c: Catalog, name: string, content: string, maxScripts: int)
    requires Represents(rs, c)
    ensures Put(rs, name, content, maxScripts).1 == MapPut(c, name, content, maxScripts).1
    ensures Represents(Put(rs, name, content, maxScripts).0, MapPut(c, name, content, maxScripts).0)
  {
    hide SameContents, SameActive, UniqueNames;
    HasIffMapped(rs, c, name);
    if Has(rs, name) {
      UpdateRefines(rs, c, Find(rs, name), content);
    } else if !OverQuota(rs, name, maxScripts) {
      StoreRefines(rs, c, name, content);
    }
  }

  // DELETESCRIPT

  lemma RemoveHas(rs: Records, i: nat, name: string)
    requires i < |rs| && Has(rs, name) && name != rs[i].name
    ensures Has(rs[..i] + rs[i + 1..], name)
  {
    var j := Find(rs, name);
    HasAt(rs[..i] + rs[i + 1..], if j < i then j else j - 1);
  }

  lemma RemoveRefines(rs: Records, c: Catalog, i: nat)
    requires Represents(rs, c) && i < |rs| && !rs[i].active
    ensures c.order[i] == rs[i].name
    ensures Represents(rs[..i] + rs[i + 1..],
            Catalog(c.order[..i] + c.order[i + 1..], c.contents - {rs[i].name}, c.active))
  {
    hide Has;
    var rs' := rs[..i] + rs[i + 1..];
    forall k | 0 <= k < |rs'| ensures rs'[k] == rs[if k < i then k else k + 1] {
    }
    forall n | n in c.contents - {rs[i].name} ensures Has(rs', n) {
      RemoveHas(rs, i, n);
    }
    if c.active.Some? {
      RemoveHas(rs, i, c.active.value);
    }
  }

  lemma ActiveIsNamed(rs: Records, c: Catalog, name: string)
    requires Represents(rs, c) && Has(rs, name)
    ensures rs[Find(rs, name)].active <==> c.active == Some(name)
  {
    hide Find;
  }

  /** DELETESCRIPT removes an inactive script and closes the gap; the active one stays. */
  lemma DeleteRefines(rs: Records, c: Catalog, name: string)
    requires Represents(rs, c)
    ensures Delete(rs, name).1 == MapDelete(c, name).1
    ensures Represents(Delete(rs, name).0, MapDelete(c, name).0)
  {
    hide SameContents, SameActive, UniqueNames;
    HasIffMapped(rs, c, name);
    if Has(rs, name) {
      ActiveIsNamed(rs, c, name);
      PlaceIsFind(rs, c.order, name);
      if c.active != Some(name) {
        RemoveRefines(rs, c, Find(rs, name));
      }
    }
  }

  // RENAMESCRIPT

  lemma RenamedHas(rs: Records, i: nat, newName: string, name: string)
    requires i < |rs|
    requires (Has(rs, name) && name != rs[i].name) || name == newName
    ensures Has(rs[i := rs[i].(name := newName)], name)
  {
    HasAt(rs[i := rs[i].(name := newName)], if name == newName then i else Find(rs, name));
  }

  lemma MoveRefines(rs: Records, c: Catalog, i: nat, newName: string)
    requires Represents(rs, c) && i < |rs| && !Has(rs, newName)
    ensures c.order[i] == rs[i].name
    ensures Represents(rs[i := rs[i].(name := newName)],
                       Catalog(c.order[i := newName],
                               (c.contents - {rs[i].name})[newName := c.contents[rs[i].name]],
                               if c.active == Some(rs[i].name) then Some(newName) else c.active))
  {
    hide Has;
    var oldName := rs[i].name;
    var rs' := rs[i := rs[i].(name := newName)];
    forall j | 0 <= j < |rs| ensures rs[j].name != newName {
      HasAt(rs, j);
    }
    forall n | n in (c.contents - {oldName})[newName := c.contents[oldName]] ensures Has(rs', n) {
      RenamedHas(rs, i, newName, n);
    }
    if c.active.Some? {
      RenamedHas(rs, i, newName, if c.active.value == oldName then newName else c.active.value);
    }
  }

  /** RENAMESCRIPT moves content and active flag to the new name, in place. */
  lemma RenameRefines(rs: Records, c: Catalog, oldName: string, newName: string)
    requires Represents(rs, c)
    ensures Rename(rs, oldName, newName).1 == MapRename(c, oldName, newName).1
    ensures Represents(Rename(rs, oldName, newName).0, MapRename(c, oldName, newName).0)
  {
    hide SameContents, SameActive, UniqueNames;
    HasIffMapped(rs, c, oldName);
    HasIffMapped(rs, c, newName);
    PlaceIsFind(rs, c.order, oldName);
    if Has(rs, oldName) && !Has(rs, newName) {
      MoveRefines(rs, c, Find(rs, oldName), newName);
    }
  }

  /** HAVESPACE answers yes exactly when PUTSCRIPT would not be refused for quota, whatever the content. */
  lemma HaveSpaceAgrees(rs: Records, name: string, content: string, maxScripts: int)
    ensures HaveSpace(rs, name, maxScripts).None? <==> !Put(rs, name, content, maxScripts).1.Refused?
  {
  }

  /** PUTSCRIPT never takes the number of scripts past the limit. */
  lemma PutKeepsQuota(rs: Records, name: string, content: string, maxScripts: int)
    ensures var n := |Put(rs, name, content, maxScripts).0|;
            n <= |rs| || (n == |rs| + 1 && (maxScripts > 0 ==> n <= maxScripts))
  {
  }

  // AddScript

  lemma FlagRefines(rs: Records, c: Catalog, i: nat, content: string, active: bool)
    requires Represents(rs, c) && i < |rs| && (active ==> c.active == None)
    ensures Represents(rs[i := Record(rs[i].name, content, active)],
                       c.(contents := c.contents[rs[i].name := content],
                          active := if active then Some(rs[i].name) else if c.active == Some(rs[i].name) then None
                              else c.active))
  {
    hide Find;
    var rs' := rs[i := Record(rs[i].name, content, active)];
    HasAt(rs', i);
    forall n | n in c.contents[rs[i].name := content] ensures Has(rs', n) {
      HasAt(rs, i);
      SameNamesHas(rs, rs', n);
    }
    if c.active.Some? {
      SameNamesHas(rs, rs', c.active.value);
    }
  }

  lemma SeedNewRefines(rs: Records, c: Catalog, name: string, content: string, active: bool)
    requires Represents(rs, c) && !Has(rs, name) && (active ==> c.active == None)
    ensures Represents(rs + [Record(name, content, active)],
                       c.(order := c.order + [name], contents := c.contents[name := content],
                          active := if active then Some(name) else c.active))
  {
    hide Has;
    var r := Record(name, content, active);
    forall i | 0 <= i < |rs| ensures rs[i].name != name {
      HasAt(rs, i);
    }
    forall n | n in c.contents[name := content] ensures Has(rs + [r], n) {
      AppendHas(rs, r, n);
    }
    AppendHas(rs, r, name);
    if c.active.Some? {
      AppendHas(rs, r, c.active.value);
    }
  }

  lemma ActiveIsStored(rs: Records, c: Catalog)
    requires Represents(rs, c)
    ensures c.active.Some? ==> Has(rs, c.active.value)
  {
  }

  /** Seeding binds the name; an active seed takes over, an inactive one gives up its own activity. */
  lemma SeedRefines(rs: Records, c: Catalog, name: string, content: string, active: bool)
    requires Represents(rs, c)
    ensures Represents(Seed(rs, name, content, active), MapSeed(c, name, content, active))
  {
    hide SameContents, SameActive, UniqueNames;
    ActivateRefines(rs, c, "");
    var cleared, c' := if active then Deactivate(rs) else rs, if active then c.(active := None) else c;
    HasIffMapped(cleared, c', name);
    ActiveIsStored(cleared, c');
    if Has(cleared, name) {
      FlagRefines(cleared, c', Find(cleared, name), content, active);
    } else {
      SeedNewRefines(cleared, c', name, content, active);
    }
  }

  /** Every well-formed list stands for a catalog. */
  ghost function Abstract(rs: Records): Catalog {
    Catalog(seq(|rs|, i requires 0 <= i < |rs| => rs[i].name),
            map i | 0 <= i < |rs| :: rs[i].name := rs[Find(rs, rs[i].name)].content,
            if exists i :: 0 <= i < |rs| && rs[i].active then
              var i :| 0 <= i < |rs| && rs[i].active;
              Some(rs[i].name)
            else None)
  }

  lemma AbstractRepresents(rs: Records)
    requires WellFormed(rs)
    ensures Represents(rs, Abstract(rs))
  {
    forall i | 0 <= i < |rs| ensures Find(rs, rs[i].name) == i && Has(rs, rs[i].name) {
      FindAt(rs, i);
    }
  }
}
